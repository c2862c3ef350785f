/** Counting by status: the `filter(x => x.status === s).length` the list
    and dashboard routes report, and the fact that counts of distinct
    statuses add up to at most the whole. */
module Tally {

  /** The number of entries equal to `s`. */
  function Count(xs: seq<string>, s: string): (n: nat)
    ensures n <= |xs|
    ensures s !in xs ==> n == 0
  {
    if |xs| == 0 then 0 else (if xs[0] == s then 1 else 0) + Count(xs[1..], s)
  }

  /** Σ over the statuses of their counts. */
  function SumCounts(xs: seq<string>, ss: seq<string>): nat {
    if |ss| == 0 then 0 else Count(xs, ss[0]) + SumCounts(xs, ss[1..])
  }

  /** The number of listed statuses equal to `s`. */
  function Hits(s: string, ss: seq<string>): nat {
    if |ss| == 0 then 0 else (if ss[0] == s then 1 else 0) + Hits(s, ss[1..])
  }

  predicate Distinct(ss: seq<string>) {
    forall i, j :: 0 <= i < j < |ss| ==> ss[i] != ss[j]
  }

  lemma {:induction false} NothingCounted(ss: seq<string>)
    ensures SumCounts([], ss) == 0
  {
    if |ss| > 0 {
      NothingCounted(ss[1..]);
    }
  }

  /** Dropping the first entry takes its hits off the sum. */
  lemma {:induction false} SumCountsStep(xs: seq<string>, ss: seq<string>)
    requires |xs| > 0
    ensures SumCounts(xs, ss) == Hits(xs[0], ss) + SumCounts(xs[1..], ss)
  {
    if |ss| > 0 {
      SumCountsStep(xs, ss[1..]);
    }
  }

  lemma {:induction false} HitsAbsent(s: string, ss: seq<string>)
    requires s !in ss
    ensures Hits(s, ss) == 0
  {
    if |ss| > 0 {
      assert ss[0] != s;
      HitsAbsent(s, ss[1..]);
    }
  }

  /** A status is listed at most once in distinct statuses, and once when
      it is listed at all. */
  lemma {:induction false} HitsOfDistinct(s: string, ss: seq<string>)
    requires Distinct(ss)
    ensures Hits(s, ss) <= 1
    ensures s in ss ==> Hits(s, ss) == 1
  {
    if |ss| > 0 {
      HitsOfDistinct(s, ss[1..]);
      if ss[0] == s {
        assert s !in ss[1..] by {
          forall k | 0 <= k < |ss[1..]| ensures ss[1..][k] != s {
            assert ss[k + 1] != ss[0];
          }
        }
        HitsAbsent(s, ss[1..]);
      } else if s in ss {
        assert s in ss[1..];
      }
    }
  }

  /** Counts of distinct statuses add up to at most the number of entries,
      and to exactly that number when every entry's status is listed. */
  lemma {:induction false} CountsPartition(xs: seq<string>, ss: seq<string>)
    requires Distinct(ss)
    ensures SumCounts(xs, ss) <= |xs|
    ensures (forall x :: x in xs ==> x in ss) ==> SumCounts(xs, ss) == |xs|
  {
    if |xs| > 0 {
      CountsPartition(xs[1..], ss);
      SumCountsStep(xs, ss);
      HitsOfDistinct(xs[0], ss);
      if forall x :: x in xs ==> x in ss {
        assert xs[0] in ss;
        assert forall x :: x in xs[1..] ==> x in xs;
      }
    } else {
      NothingCounted(ss);
    }
  }

  /** The three-status form the dashboards use. */
  lemma CountsOfThree(xs: seq<string>, a: string, b: string, c: string)
    requires a != b && b != c && a != c
    ensures Count(xs, a) + Count(xs, b) + Count(xs, c) <= |xs|
    ensures (forall x :: x in xs ==> x == a || x == b || x == c)
            ==> Count(xs, a) + Count(xs, b) + Count(xs, c) == |xs|
  {
    var ss := [a, b, c];
    assert ss[1..] == [b, c] && ss[1..][1..] == [c] && ss[1..][1..][1..] == [];
    assert SumCounts(xs, ss[1..][1..]) == Count(xs, c);
    assert SumCounts(xs, ss) == Count(xs, a) + Count(xs, b) + Count(xs, c);
    CountsPartition(xs, ss);
  }
}
