/** The interpolated percentile of pkg/observability/metrics.go, over exact reals. */
module Percentile {
  predicate Ascending(s: seq<real>) {
    forall i, j :: 0 <= i < j < |s| ==> s[i] <= s[j]
  }

  function Insert(s: seq<real>, x: real): (r: seq<real>)
    requires Ascending(s)
    ensures Ascending(r) && multiset(r) == multiset(s) + multiset{x}
    ensures forall i :: 0 <= i < |r| ==> r[i] <= x || (s != [] && r[i] <= s[|s| - 1])
  {
    if s == [] || s[|s| - 1] <= x then s + [x]
    else
      assert s == s[..|s| - 1] + [s[|s| - 1]];
      Insert(s[..|s| - 1], x) + [s[|s| - 1]]
  }

  function Sorted(s: seq<real>): (r: seq<real>)
    ensures Ascending(r) && multiset(r) == multiset(s)
    ensures |r| == |s|
  {
    if s == [] then []
    else
      assert s == s[..|s| - 1] + [s[|s| - 1]];
      var r := Insert(Sorted(s[..|s| - 1]), s[|s| - 1]);
      assert |multiset(r)| == |r| && |multiset(s)| == |s|;
      r
  }

  lemma LastIsGreatest(s: seq<real>, x: real)
    requires Ascending(s) && x in multiset(s)
    ensures s != [] && x <= s[|s| - 1]
  {
  }

  lemma DropLast(s: seq<real>)
    requires s != []
    ensures multiset(s) == multiset(s[..|s| - 1]) + multiset{s[|s| - 1]}
  {
    assert s == s[..|s| - 1] + [s[|s| - 1]];
  }

  lemma Cancel(m: multiset<real>, k: multiset<real>, x: real)
    requires m + multiset{x} == k + multiset{x}
    ensures m == k
  {
    assert m == m + multiset{x} - multiset{x};
  }

  lemma SameInits(a: seq<real>, b: seq<real>)
    requires a != [] && b != [] && multiset(a) == multiset(b) && a[|a| - 1] == b[|b| - 1]
    ensures multiset(a[..|a| - 1]) == multiset(b[..|b| - 1])
  {
    DropLast(a);
    DropLast(b);
    Cancel(multiset(a[..|a| - 1]), multiset(b[..|b| - 1]), a[|a| - 1]);
  }

  lemma LastsAgree(a: seq<real>, b: seq<real>)
    requires Ascending(a) && Ascending(b) && multiset(a) == multiset(b) && a != []
    ensures b != [] && a[|a| - 1] == b[|b| - 1]
  {
    var x := a[|a| - 1];
    LastIsGreatest(b, x);
    LastIsGreatest(a, b[|b| - 1]);
  }

  lemma OnlyEmpty(b: seq<real>)
    requires multiset(b) == multiset{}
    ensures b == []
  {
    assert |multiset(b)| == 0;
  }

  /** There is only one ascending arrangement. */
  lemma {:induction false} AscendingIsUnique(a: seq<real>, b: seq<real>)
    requires Ascending(a) && Ascending(b) && multiset(a) == multiset(b)
    ensures a == b
  {
    if a == [] {
      OnlyEmpty(b);
    } else {
      LastsAgree(a, b);
      SameInits(a, b);
      AscendingIsUnique(a[..|a| - 1], b[..|b| - 1]);
      assert a == a[..|a| - 1] + [a[|a| - 1]] && b == b[..|b| - 1] + [b[|b| - 1]];
    }
  }

  lemma ShortIsSorted(s: seq<real>)
    requires |s| <= 1
    ensures Sorted(s) == s
  {
  }

  function Ceil(x: real): int { -(-x).Floor }

  /** Interpolation at a rank between 0 and |s| - 1. */
  function AtRank(s: seq<real>, rank: real): real
    requires 0.0 <= rank <= (|s| - 1) as real
  {
    var lower, upper := rank.Floor, Ceil(rank);
    if lower == upper then s[lower]
    else
      var frac := rank - lower as real;
      s[lower] * (1.0 - frac) + s[upper] * frac
  }

  function Rank(n: nat, p: real): (r: real)
    requires n > 0 && 0.0 <= p <= 100.0
    ensures 0.0 <= r <= (n - 1) as real
  {
    RankWithin((n - 1) as real, p);
    (p / 100.0) * (n - 1) as real
  }

  lemma RankWithin(m: real, p: real)
    requires m >= 0.0 && 0.0 <= p <= 100.0
    ensures 0.0 <= (p / 100.0) * m <= m
  {
  }

  /** The percentile of the samples in ascending order. */
  function Of(s: seq<real>, p: real): real {
    if |s| == 0 then 0.0
    else if |s| == 1 then s[0]
    else if p <= 0.0 then s[0]
    else if p >= 100.0 then s[|s| - 1]
    else AtRank(s, Rank(|s|, p))
  }

  /** The library sort. */
  method SortInPlace(values: array<real>)
    modifies values
    ensures values[..] == Sorted(old(values[..]))
  {
    var s := Sorted(values[..]);
    for i := 0 to values.Length
      invariant values[..i] == s[..i]
    {
      values[i] := s[i];
    }
    assert values[..] == values[..values.Length] && s == s[..|s|];
  }

  method Percentile(values: array<real>, p: real) returns (r: real)
    modifies values
    ensures r == Of(Sorted(old(values[..])), p)
    ensures values[..] == Sorted(old(values[..]))
  {
    var n := values.Length;
    if n <= 1 {
      ShortIsSorted(values[..]);
    }
    if n == 0 {
      return 0.0;
    }
    if n == 1 {
      return values[0];
    }
    SortInPlace(values);
    ghost var s := values[..];
    if p <= 0.0 {
      r := values[0];
    } else if p >= 100.0 {
      r := values[n - 1];
    } else {
      r := Interpolated(values, Rank(n, p));
    }
    assert r == Of(s, p);
  }

  method Interpolated(values: array<real>, rank: real) returns (r: real)
    requires 0.0 <= rank <= (values.Length - 1) as real
    ensures r == AtRank(values[..], rank)
  {
    var lower := rank.Floor;
    var upper := Ceil(rank);
    ghost var s := values[..];
    assert values[lower] == s[lower] && values[upper] == s[upper];
    if lower == upper {
      return values[lower];
    }
    var frac := rank - lower as real;
    return values[lower] * (1.0 - frac) + values[upper] * frac;
  }

  // ----- Properties

  /** Within the cell above an index the value lies between the two neighbours, on the
      line through them. */
  lemma InCell(s: seq<real>, rank: real, l: nat)
    requires l + 1 < |s| && l as real <= rank <= (l + 1) as real
    ensures AtRank(s, rank) == s[l] + (s[l + 1] - s[l]) * (rank - l as real)
  {
    var frac := rank - l as real;
    if rank == (l + 1) as real {
      assert AtRank(s, rank) == s[l + 1] && frac == 1.0;
    } else if rank == l as real {
      assert AtRank(s, rank) == s[l] && frac == 0.0;
    } else {
      assert rank.Floor == l && Ceil(rank) == l + 1;
      assert s[l] * (1.0 - frac) + s[l + 1] * frac == s[l] + (s[l + 1] - s[l]) * frac;
    }
  }

  lemma Scaled(d: real, x: real, y: real)
    requires d >= 0.0 && 0.0 <= x <= y <= 1.0
    ensures 0.0 <= d * x <= d * y <= d
  {
  }

  lemma BetweenNeighbours(s: seq<real>, rank: real, l: nat)
    requires Ascending(s) && l + 1 < |s| && l as real <= rank <= (l + 1) as real
    ensures s[l] <= AtRank(s, rank) <= s[l + 1]
  {
    InCell(s, rank, l);
    Scaled(s[l + 1] - s[l], rank - l as real, 1.0);
  }

  function Cell(s: seq<real>, rank: real): (l: nat)
    requires |s| > 1 && 0.0 <= rank <= (|s| - 1) as real
    ensures l + 1 < |s| && l as real <= rank <= (l + 1) as real
  {
    if rank == (|s| - 1) as real then |s| - 2 else rank.Floor
  }

  lemma AlongLine(u: real, v: real, base: real, d: real, x: real, y: real)
    requires u == base + d * x && v == base + d * y && d >= 0.0 && x <= y
    ensures u <= v
  {
  }

  lemma SameCellMonotone(s: seq<real>, r: real, q: real, l: nat)
    requires Ascending(s) && l + 1 < |s| && l as real <= r <= q <= (l + 1) as real
    ensures AtRank(s, r) <= AtRank(s, q)
  {
    InCell(s, r, l);
    InCell(s, q, l);
    AlongLine(AtRank(s, r), AtRank(s, q), s[l], s[l + 1] - s[l], r - l as real, q - l as real);
  }

  lemma AtRankMonotone(s: seq<real>, r: real, q: real)
    requires Ascending(s) && |s| > 1 && 0.0 <= r <= q <= (|s| - 1) as real
    ensures s[0] <= AtRank(s, r) <= AtRank(s, q) <= s[|s| - 1]
  {
    var l, m := Cell(s, r), Cell(s, q);
    BetweenNeighbours(s, r, l);
    BetweenNeighbours(s, q, m);
    assert l <= m;
    if l == m {
      SameCellMonotone(s, r, q, l);
    } else {
      assert s[l + 1] <= s[m];
    }
  }

  lemma RanksOrdered(n: nat, p: real, q: real)
    requires n > 0 && 0.0 <= p <= q <= 100.0
    ensures Rank(n, p) <= Rank(n, q)
  {
    assert (q / 100.0 - p / 100.0) * (n - 1) as real >= 0.0;
  }

  /** For every non-empty sample list: the percentile never decreases in p, and lies
      between the least and the greatest sample, which it reaches at 0 and at 100. */
  lemma PercentileMonotone(samples: seq<real>, p: real, q: real)
    requires samples != [] && p <= q
    ensures var s := Sorted(samples);
            && s[0] <= Of(s, p) <= Of(s, q) <= s[|s| - 1]
            && Of(s, 0.0) == s[0] && Of(s, 100.0) == s[|s| - 1]
  {
    var s := Sorted(samples);
    if |s| > 1 {
      var a := if p <= 0.0 then 0.0 else if p >= 100.0 then 100.0 else p;
      var b := if q <= 0.0 then 0.0 else if q >= 100.0 then 100.0 else q;
      RanksOrdered(|s|, a, b);
      AtRankMonotone(s, Rank(|s|, a), Rank(|s|, b));
      assert Rank(|s|, 0.0) == 0.0 && Rank(|s|, 100.0) == (|s| - 1) as real;
    }
  }

  /** The least and greatest samples are what the ends of the sorted list hold. */
  lemma EndsAreExtremes(samples: seq<real>, x: real)
    requires x in samples
    ensures var s := Sorted(samples); s[0] <= x <= s[|s| - 1] && s[0] in samples && s[|s| - 1] in samples
  {
    var s := Sorted(samples);
    assert x in multiset(samples) && x in s;
    assert s[0] in multiset(s) && s[|s| - 1] in multiset(s);
  }

  lemma OrderIsIrrelevant(a: seq<real>, b: seq<real>, p: real)
    requires multiset(a) == multiset(b)
    ensures Of(Sorted(a), p) == Of(Sorted(b), p)
  {
    AscendingIsUnique(Sorted(a), Sorted(b));
  }
}
