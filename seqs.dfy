/**
 Order-preserving selection and concatenation over sequences: the sequence
 meaning of a boolean-mask row selection and of concatenating a list of tables.
 */
module Seqs {

  /** The elements of s for which keep holds, in their original order. */
  function Filter<T>(s: seq<T>, keep: T -> bool): (r: seq<T>)
    ensures |r| <= |s|
    ensures forall i :: 0 <= i < |r| ==> keep(r[i])
  {
    if s == [] then []
    else if keep(s[0]) then [s[0]] + Filter(s[1..], keep)
    else Filter(s[1..], keep)
  }

  /** a is obtained from b by deleting zero or more elements. */
  predicate IsSubsequence<T(==)>(a: seq<T>, b: seq<T>)
    decreases |b|
  {
    if b == [] then a == []
    else (a != [] && a[0] == b[0] && IsSubsequence(a[1..], b[1..])) || IsSubsequence(a, b[1..])
  }

  /** The tables of ss glued one after the other, in list order. */
  function Concat<T>(ss: seq<seq<T>>): seq<T>
  {
    if ss == [] then [] else Concat(ss[..|ss| - 1]) + ss[|ss| - 1]
  }

  /** The total number of elements of the tables of ss. */
  function TotalLength<T>(ss: seq<seq<T>>): nat
  {
    if ss == [] then 0 else TotalLength(ss[..|ss| - 1]) + |ss[|ss| - 1]|
  }

  /** Filtering keeps exactly the selected occurrences: an element keep accepts
      occurs in the result as often as in the input, any other element not at all. */
  lemma {:induction false} FilterMultiplicity<T>(s: seq<T>, keep: T -> bool, x: T)
    ensures multiset(Filter(s, keep))[x] == if keep(x) then multiset(s)[x] else 0
  {
    if s != [] {
      FilterMultiplicity(s[1..], keep, x);
      assert s == [s[0]] + s[1..];
    }
  }

  /** Soundness and completeness of the selection, as membership. */
  lemma {:induction false} FilterMembers<T>(s: seq<T>, keep: T -> bool)
    ensures forall x :: x in Filter(s, keep) <==> x in s && keep(x)
  {
    forall x ensures x in Filter(s, keep) <==> x in s && keep(x) {
      FilterMultiplicity(s, keep, x);
    }
  }

  /** Filtering deletes elements and never reorders them. */
  lemma {:induction false} FilterIsSubsequence<T>(s: seq<T>, keep: T -> bool)
    ensures IsSubsequence(Filter(s, keep), s)
  {
    if s != [] {
      FilterIsSubsequence(s[1..], keep);
      if keep(s[0]) {
        var r := Filter(s, keep);
        assert r[0] == s[0] && r[1..] == Filter(s[1..], keep);
      }
    }
  }

  /** Filtering a second time with the same predicate changes nothing. */
  lemma {:induction false} FilterIdempotent<T>(s: seq<T>, keep: T -> bool)
    ensures Filter(Filter(s, keep), keep) == Filter(s, keep)
  {
    if s != [] {
      FilterIdempotent(s[1..], keep);
      if keep(s[0]) {
        var r := Filter(s, keep);
        assert r[0] == s[0] && r[1..] == Filter(s[1..], keep);
      }
    }
  }

  /** An element is in the concatenation iff it is in one of the tables. */
  lemma {:induction false} ConcatMembers<T>(ss: seq<seq<T>>, x: T)
    ensures x in Concat(ss) <==> exists k :: 0 <= k < |ss| && x in ss[k]
  {
    if ss != [] {
      var init := ss[..|ss| - 1];
      ConcatMembers(init, x);
      if x in Concat(init) {
        var k :| 0 <= k < |init| && x in init[k];
        assert ss[k] == init[k];
      }
      if k :| 0 <= k < |ss| && x in ss[k] {
        if k < |init| {
          assert init[k] == ss[k];
        }
      }
    }
  }

  /** The concatenation is exactly as long as its tables together. */
  lemma {:induction false} ConcatLength<T>(ss: seq<seq<T>>)
    ensures |Concat(ss)| == TotalLength(ss)
  {
    if ss != [] {
      ConcatLength(ss[..|ss| - 1]);
    }
  }

  /** Table k of ss occupies the block of the concatenation that starts after
      the rows of tables 0 .. k-1: the tables are joined in list order. */
  lemma {:induction false} ConcatBlocks<T>(ss: seq<seq<T>>, k: nat)
    requires k < |ss|
    ensures TotalLength(ss[..k]) + |ss[k]| <= |Concat(ss)|
    ensures Concat(ss)[TotalLength(ss[..k]) .. TotalLength(ss[..k]) + |ss[k]|] == ss[k]
  {
    var init := ss[..|ss| - 1];
    ConcatLength(init);
    if k < |ss| - 1 {
      ConcatBlocks(init, k);
      assert init[..k] == ss[..k] && init[k] == ss[k];
    } else {
      assert ss[..k] == init;
    }
  }
}
