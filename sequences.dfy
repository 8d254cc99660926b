/** Order-preserving helpers over sequences: distinctness and the
    JavaScript idiom `Array.from(new Set(s))`, which keeps the first
    occurrence of every element in its original order. */
module Sequences {

  predicate Distinct<T(==)>(s: seq<T>) {
    forall i, j :: 0 <= i < j < |s| ==> s[i] != s[j]
  }

  /** `Array.from(new Set(s))`: the elements of `s`, each once, in order of
      first occurrence. */
  function Dedup<T(==,!new)>(s: seq<T>): (r: seq<T>)
    ensures forall x :: x in r <==> x in s
    ensures Distinct(r)
    ensures |r| <= |s|
    decreases |s|
  {
    if s == [] then []
    else
      var init, last := s[..|s| - 1], s[|s| - 1];
      assert s == init + [last];
      var d := Dedup(init);
      if last in d then d else d + [last]
  }

  /** Some occurrence of `a` in `s` comes before every occurrence of `b`. */
  ghost predicate Before<T(!new)>(s: seq<T>, a: T, b: T) {
    exists k :: 0 <= k < |s| && s[k] == a && b !in s[..k + 1]
  }

  /** Deduplication keeps first-occurrence order: of two kept elements, the
      earlier one occurs in `s` before the later one first does. */
  lemma {:induction false} DedupOrder<T(!new)>(s: seq<T>)
    ensures forall i, j :: 0 <= i < j < |Dedup(s)| ==> Before(s, Dedup(s)[i], Dedup(s)[j])
    decreases |s|
  {
    if s != [] {
      var init, last := s[..|s| - 1], s[|s| - 1];
      DedupOrder(init);
      var d, r := Dedup(init), Dedup(s);
      assert r == if last in d then d else d + [last];
      forall i, j | 0 <= i < j < |r| ensures Before(s, r[i], r[j]) {
        assert r[i] == d[i] && r[i] in init;
        var k :| 0 <= k < |init| && init[k] == r[i] && (j < |d| ==> r[j] !in init[..k + 1]);
        assert s[..k + 1] == init[..k + 1] && s[k] == init[k];
        if j == |d| {
          assert forall y :: y in init[..k + 1] ==> y in init;
        }
      }
    }
  }

  /** The first element survives deduplication in first place. */
  lemma {:induction false} DedupHead<T(!new)>(s: seq<T>)
    requires |s| > 0
    ensures |Dedup(s)| > 0 && Dedup(s)[0] == s[0]
    decreases |s|
  {
    var init := s[..|s| - 1];
    if |init| > 0 {
      DedupHead(init);
      assert init[0] == s[0];
    } else {
      assert Dedup(init) == [];
    }
  }

  /** Deduplication leaves exactly one element iff the sequence is non-empty
      and all its elements are equal. */
  lemma DedupSingle<T(!new)>(s: seq<T>)
    ensures |Dedup(s)| == 1 <==> |s| > 0 && forall i :: 0 <= i < |s| ==> s[i] == s[0]
  {
    var d := Dedup(s);
    if |d| == 1 {
      assert d[0] in s;
      forall i | 0 <= i < |s| ensures s[i] == s[0] {
        assert s[i] in d && s[0] in d;
      }
    }
    if |s| > 0 && forall i :: 0 <= i < |s| ==> s[i] == s[0] {
      assert s[0] in d;
      assert forall k :: 0 <= k < |d| ==> d[k] == s[0] by {
        forall k | 0 <= k < |d| ensures d[k] == s[0] { assert d[k] in s; }
      }
    }
  }

  /** A sequence without repetitions has as many elements as its set. */
  lemma {:induction false} DistinctCard<T>(s: seq<T>)
    requires Distinct(s)
    ensures |set x | x in s| == |s|
    decreases |s|
  {
    if s != [] {
      var init, last := s[..|s| - 1], s[|s| - 1];
      assert Distinct(init);
      DistinctCard(init);
      assert s == init + [last];
      assert (set x | x in s) == (set x | x in init) + {last};
      assert last !in (set x | x in init);
    }
  }
}
