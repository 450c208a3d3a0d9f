/** Searching a sequence, as `Array.prototype.find` does. */
module Seqs {
  import opened Wrappers

  /** Index of the first element of `s` that satisfies `p`, or None when no element does. */
  function FirstIndex<T>(s: seq<T>, p: T -> bool): (r: Option<nat>)
    ensures r.Some? ==> r.value < |s| && p(s[r.value])
    ensures r.Some? ==> forall j :: 0 <= j < r.value ==> !p(s[j])
    ensures r.None? <==> forall j :: 0 <= j < |s| ==> !p(s[j])
    decreases |s|
  {
    if |s| == 0 then None
    else if p(s[0]) then Some(0)
    else match FirstIndex(s[1..], p)
      case None => None
      case Some(i) => Some(i + 1)
  }

  /** The values `f` yields along `s`, in order; elements for which `f` yields
      None contribute nothing. */
  function FilterMap<A, B>(s: seq<A>, f: A -> Option<B>): (r: seq<B>)
    decreases |s|
  {
    if |s| == 0 then [] else FilterMap(s[..|s| - 1], f) + f(s[|s| - 1]).ToSeq()
  }

  lemma AppendDropLast<A>(s: seq<A>, t: seq<A>)
    requires |t| != 0
    ensures (s + t)[..|s + t| - 1] == s + t[..|t| - 1]
    ensures (s + t)[|s + t| - 1] == t[|t| - 1]
  {
  }

  lemma {:induction false} FilterMapAppend<A, B>(s: seq<A>, t: seq<A>, f: A -> Option<B>)
    ensures FilterMap(s + t, f) == FilterMap(s, f) + FilterMap(t, f)
    decreases |t|
  {
    if |t| == 0 {
      assert s + t == s;
    } else {
      AppendDropLast(s, t);
      FilterMapAppend(s, t[..|t| - 1], f);
    }
  }

  lemma FilterMapSingleton<A, B>(x: A, f: A -> Option<B>)
    ensures FilterMap([x], f) == f(x).ToSeq()
  {
    assert [x][..0] == [];
  }

  lemma SplitAt<A>(s: seq<A>, i: int)
    requires 0 <= i < |s|
    ensures s == s[..i] + [s[i]] + s[i + 1..]
  {
  }

  lemma FilterMapAround<A, B>(before: seq<A>, x: A, after: seq<A>, f: A -> Option<B>)
    ensures FilterMap(before + [x] + after, f) == FilterMap(before, f) + f(x).ToSeq() + FilterMap(after, f)
  {
    FilterMapAppend(before + [x], after, f);
    FilterMapAppend(before, [x], f);
    FilterMapSingleton(x, f);
  }

  lemma FilterMapAt<A, B>(s: seq<A>, f: A -> Option<B>, i: int)
    requires 0 <= i < |s|
    ensures FilterMap(s, f) == FilterMap(s[..i], f) + f(s[i]).ToSeq() + FilterMap(s[i + 1..], f)
  {
    SplitAt(s, i);
    FilterMapAround(s[..i], s[i], s[i + 1..], f);
  }

  lemma {:induction false} FilterMapLength<A, B>(s: seq<A>, f: A -> Option<B>)
    ensures |FilterMap(s, f)| <= |s|
    decreases |s|
  {
    if |s| != 0 {
      FilterMapLength(s[..|s| - 1], f);
    }
  }

  lemma {:induction false} FilterMapFrom<A, B>(s: seq<A>, f: A -> Option<B>, k: int)
    requires 0 <= k < |FilterMap(s, f)|
    ensures exists i :: 0 <= i < |s| && f(s[i]) == Some(FilterMap(s, f)[k])
    decreases |s|
  {
    var init := s[..|s| - 1];
    if k < |FilterMap(init, f)| {
      FilterMapFrom(init, f, k);
      var i :| 0 <= i < |init| && f(init[i]) == Some(FilterMap(init, f)[k]);
      assert s[i] == init[i];
    } else {
      assert f(s[|s| - 1]) == Some(FilterMap(s, f)[k]);
    }
  }

  lemma {:induction false} FilterMapEmpty<A, B>(s: seq<A>, f: A -> Option<B>)
    ensures FilterMap(s, f) == [] <==> forall i :: 0 <= i < |s| ==> f(s[i]) == None
    decreases |s|
  {
    if |s| != 0 {
      var init := s[..|s| - 1];
      FilterMapEmpty(init, f);
      assert forall i :: 0 <= i < |init| ==> s[i] == init[i];
    }
  }
}
