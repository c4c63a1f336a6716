/** Bags of sequence elements under a mapping of the elements. */
module Bags {
  function Map<A, B>(f: A -> B, s: seq<A>): (r: seq<B>)
    ensures |r| == |s| && forall i :: 0 <= i < |s| ==> r[i] == f(s[i])
  {
    seq(|s|, i requires 0 <= i < |s| => f(s[i]))
  }

  ghost function ToSeq<T>(m: multiset<T>): (s: seq<T>)
    ensures multiset(s) == m
    decreases |m|
  {
    if m == multiset{} then []
    else
      var x :| x in m;
      [x] + ToSeq(m - multiset{x})
  }

  lemma SubbagSize<T>(m: multiset<T>, n: multiset<T>)
    requires m <= n
    ensures |m| <= |n|
  {
    assert n == m + (n - m);
  }

  lemma Meet<T>(m: multiset<T>, n: multiset<T>)
    requires n <= m
    ensures m * n == n
  {
  }

  lemma Without<T>(s: seq<T>, i: nat)
    requires i < |s|
    ensures multiset(s) == multiset(s[..i] + s[i + 1..]) + multiset{s[i]}
  {
    assert s == s[..i] + [s[i]] + s[i + 1..];
  }

  lemma SliceSubbag<T>(s: seq<T>, i: nat, j: nat)
    requires i <= j <= |s|
    ensures multiset(s[i..j]) <= multiset(s)
  {
    assert s == s[..i] + s[i..j] + s[j..];
  }

  lemma CancelOne<T>(m: multiset<T>, n: multiset<T>, x: T)
    requires multiset{x} + m <= n + multiset{x}
    ensures m <= n
  {
    assert m == (multiset{x} + m) - multiset{x};
    assert n == (n + multiset{x}) - multiset{x};
  }

  /** Where the first element of a sub-bag is found, and that the rest is found elsewhere. */
  lemma FindHead<A>(u: seq<A>, s: seq<A>) returns (i: nat)
    requires u != [] && multiset(u) <= multiset(s)
    ensures i < |s| && s[i] == u[0] && multiset(u[1..]) <= multiset(s[..i] + s[i + 1..])
  {
    var x := u[0];
    assert multiset(u) == multiset{x} + multiset(u[1..]) by { assert u == [x] + u[1..]; }
    assert x in multiset(s);
    i :| 0 <= i < |s| && s[i] == x;
    Without(s, i);
    CancelOne(multiset(u[1..]), multiset(s[..i] + s[i + 1..]), x);
  }

  lemma MapHead<A, B>(f: A -> B, u: seq<A>)
    requires u != []
    ensures multiset(Map(f, u)) == multiset{f(u[0])} + multiset(Map(f, u[1..]))
  {
    assert Map(f, u) == [f(u[0])] + Map(f, u[1..]);
  }

  lemma {:induction false} MapSubbag<A, B>(f: A -> B, u: seq<A>, s: seq<A>)
    requires multiset(u) <= multiset(s)
    ensures multiset(Map(f, u)) <= multiset(Map(f, s))
    decreases |u|
  {
    if u != [] {
      var i := FindHead(u, s);
      MapSubbag(f, u[1..], s[..i] + s[i + 1..]);
      MapWithout(f, s, i);
      MapHead(f, u);
    }
  }

  lemma MapWithout<A, B>(f: A -> B, s: seq<A>, i: nat)
    requires i < |s|
    ensures multiset(Map(f, s)) == multiset(Map(f, s[..i] + s[i + 1..])) + multiset{f(s[i])}
  {
    assert Map(f, s[..i] + s[i + 1..]) == Map(f, s)[..i] + Map(f, s)[i + 1..];
    Without(Map(f, s), i);
  }

  /** Mapping the elements can only merge them, so it never shrinks an overlap. */
  lemma MapOverlap<A, B>(f: A -> B, s: seq<A>, t: seq<A>)
    ensures |multiset(s) * multiset(t)| <= |multiset(Map(f, s)) * multiset(Map(f, t))|
  {
    var u := ToSeq(multiset(s) * multiset(t));
    MapSubbag(f, u, s);
    MapSubbag(f, u, t);
    assert multiset(Map(f, u)) <= multiset(Map(f, s)) * multiset(Map(f, t));
    SubbagSize(multiset(Map(f, u)), multiset(Map(f, s)) * multiset(Map(f, t)));
    assert |multiset(u)| == |u| && |multiset(Map(f, u))| == |u|;
  }

  ghost predicate InjectiveOn<A(!new), B>(f: A -> B, s: seq<A>) {
    forall x, y :: x in s && y in s && f(x) == f(y) ==> x == y
  }

  lemma AddOne<T>(m: multiset<T>, n: multiset<T>, x: T)
    ensures |(m + multiset{x}) * n| == |m * n| + (if m[x] < n[x] then 1 else 0)
  {
    if m[x] < n[x] {
      assert (m + multiset{x}) * n == m * n + multiset{x};
    } else {
      assert (m + multiset{x}) * n == m * n;
    }
  }

  lemma {:induction false} InjectiveCount<A(!new), B>(f: A -> B, s: seq<A>, all: seq<A>, x: A)
    requires InjectiveOn(f, all) && x in all && forall y :: y in s ==> y in all
    ensures multiset(Map(f, s))[f(x)] == multiset(s)[x]
  {
    if s != [] {
      var init, last := s[..|s| - 1], s[|s| - 1];
      assert s == init + [last];
      assert last in all;
      assert Map(f, s) == Map(f, init) + [f(last)];
      InjectiveCount(f, init, all, x);
    }
  }

  /** An injective mapping leaves the size of an overlap unchanged. */
  lemma {:induction false} InjectiveOverlap<A(!new), B>(f: A -> B, s: seq<A>, t: seq<A>, all: seq<A>)
    requires InjectiveOn(f, all) && forall y :: y in s || y in t ==> y in all
    ensures |multiset(Map(f, s)) * multiset(Map(f, t))| == |multiset(s) * multiset(t)|
    decreases |s|
  {
    if s == [] {
      assert multiset(s) * multiset(t) == multiset{};
      assert multiset(Map(f, s)) * multiset(Map(f, t)) == multiset{};
    } else {
      var init, last := s[..|s| - 1], s[|s| - 1];
      assert s == init + [last];
      assert last in all;
      assert Map(f, s) == Map(f, init) + [f(last)];
      InjectiveOverlap(f, init, t, all);
      InjectiveCount(f, init, all, last);
      InjectiveCount(f, t, all, last);
      AddOne(multiset(init), multiset(t), last);
      AddOne(multiset(Map(f, init)), multiset(Map(f, t)), f(last));
    }
  }
}

/** Clipped n-gram counting, pkg/qa/bleu.go. */
module Bleu {
  import opened Bags

  type Word = string

  const MAX_NGRAM := 4
  const EPSILON := 0.1

  function NGrams(tokens: seq<Word>, n: nat): (grams: seq<seq<Word>>)
    ensures |grams| == if n <= |tokens| then |tokens| - n + 1 else 0
    ensures forall i :: 0 <= i < |grams| ==> grams[i] == tokens[i..i + n]
  {
    if n > |tokens| then [] else seq(|tokens| - n + 1, i requires 0 <= i <= |tokens| - n => tokens[i..i + n])
  }

  /** strings.Join with a single space. */
  function JoinWords(gram: seq<Word>): string {
    if gram == [] then ""
    else if |gram| == 1 then gram[0]
    else gram[0] + " " + JoinWords(gram[1..])
  }

  function Keys(tokens: seq<Word>, n: nat): seq<string> {
    Map(JoinWords, NGrams(tokens, n))
  }

  /** The map nGramCounts fills: each key with the number of times it occurs. */
  ghost predicate Counts(counts: map<string, int>, keys: seq<string>) {
    && (forall k :: k in counts <==> k in multiset(keys))
    && (forall k :: k in counts ==> counts[k] == multiset(keys)[k])
  }

  lemma OneMore(counts: map<string, int>, keys: seq<string>, i: nat)
    requires i < |keys| && Counts(counts, keys[..i])
    ensures Counts(counts[keys[i] := (if keys[i] in counts then counts[keys[i]] else 0) + 1], keys[..i + 1])
  {
    assert keys[..i + 1] == keys[..i] + [keys[i]];
  }

  lemma KeyAt(tokens: seq<Word>, n: nat, i: nat)
    requires i + n <= |tokens|
    ensures i < |Keys(tokens, n)| && Keys(tokens, n)[i] == JoinWords(tokens[i..i + n])
  {
  }

  method NGramCounts(tokens: seq<Word>, n: nat) returns (counts: map<string, int>)
    ensures Counts(counts, Keys(tokens, n))
  {
    counts := map[];
    ghost var keys := Keys(tokens, n);
    var i := 0;
    while i + n <= |tokens|
      invariant i <= |keys|
      invariant Counts(counts, keys[..i])
    {
      var key := JoinWords(tokens[i..i + n]);
      KeyAt(tokens, n, i);
      OneMore(counts, keys, i);
      counts := counts[key := (if key in counts then counts[key] else 0) + 1];
      i := i + 1;
    }
    assert keys[..i] == keys;
  }

  ghost function Clipped(ref: seq<Word>, cand: seq<Word>, n: nat): nat {
    |multiset(Keys(ref, n)) * multiset(Keys(cand, n))|
  }

  /** Each distinct candidate n-gram is credited at most as often as the reference has
      it. The maps are visited in an arbitrary order. */
  method ClippedNGramMatches(ref: seq<Word>, cand: seq<Word>, n: nat) returns (matched: int)
    ensures matched == Clipped(ref, cand, n)
  {
    var refCounts := NGramCounts(ref, n);
    var candCounts := NGramCounts(cand, n);
    ghost var overlap := multiset(Keys(ref, n)) * multiset(Keys(cand, n));
    ghost var left := overlap;
    matched := 0;
    var unvisited := candCounts.Keys;
    while unvisited != {}
      invariant unvisited <= candCounts.Keys
      invariant forall k :: left[k] == if k in unvisited then overlap[k] else 0
      invariant matched == |overlap| - |left|
      decreases unvisited
    {
      var gram :| gram in unvisited;
      unvisited := unvisited - {gram};
      left := left[gram := 0];
      if gram in refCounts {
        var candCount, refCount := candCounts[gram], refCounts[gram];
        matched := matched + (if candCount < refCount then candCount else refCount);
      }
    }
    assert left == multiset{};
  }

  // ----- Keys stand for n-grams

  ghost predicate Tokens(tokens: seq<Word>) {
    forall i :: 0 <= i < |tokens| ==> ' ' !in tokens[i]
  }

  lemma FirstWord(g: Word, h: Word, x: string, y: string)
    requires ' ' !in g && ' ' !in h && g + " " + x == h + " " + y
    ensures g == h && x == y
  {
    var s := g + " " + x;
    assert s[|g|] == ' ' && s[|h|] == ' ';
    assert forall i :: 0 <= i < |g| ==> s[i] == g[i];
    assert forall i :: 0 <= i < |h| ==> s[i] == h[i];
    assert |g| == |h|;
    assert g == s[..|g|] && h == s[..|h|];
    assert x == s[|g| + 1..] && y == s[|h| + 1..];
  }

  /** For tokens without spaces, joining loses nothing at a fixed n. */
  lemma {:induction false} JoinIsInjective(g: seq<Word>, h: seq<Word>)
    requires |g| == |h| && Tokens(g) && Tokens(h) && JoinWords(g) == JoinWords(h)
    ensures g == h
  {
    if |g| >= 2 {
      FirstWord(g[0], h[0], JoinWords(g[1..]), JoinWords(h[1..]));
      JoinIsInjective(g[1..], h[1..]);
      assert g == [g[0]] + g[1..] && h == [h[0]] + h[1..];
    }
  }

  /** The number of n-grams two texts share, counted with multiplicity. */
  ghost function Shared(ref: seq<Word>, cand: seq<Word>, n: nat): nat {
    |multiset(NGrams(ref, n)) * multiset(NGrams(cand, n))|
  }

  lemma GramsAreTokens(tokens: seq<Word>, n: nat, g: seq<Word>)
    requires Tokens(tokens) && g in NGrams(tokens, n)
    ensures |g| == n && Tokens(g)
  {
  }

  lemma KeysTellGramsApart(ref: seq<Word>, cand: seq<Word>, n: nat)
    requires Tokens(ref) && Tokens(cand)
    ensures InjectiveOn(JoinWords, NGrams(ref, n) + NGrams(cand, n))
  {
    var all := NGrams(ref, n) + NGrams(cand, n);
    forall g | g in all
      ensures |g| == n && Tokens(g)
    {
      if g in NGrams(ref, n) { GramsAreTokens(ref, n, g); } else { GramsAreTokens(cand, n, g); }
    }
    forall g, h | g in all && h in all && JoinWords(g) == JoinWords(h)
      ensures g == h
    {
      JoinIsInjective(g, h);
    }
  }

  /** The clipped count over joined keys is the size of the intersection of the two
      n-gram bags. */
  lemma ClippedCountIsShared(ref: seq<Word>, cand: seq<Word>, n: nat)
    requires Tokens(ref) && Tokens(cand)
    ensures Clipped(ref, cand, n) == Shared(ref, cand, n)
  {
    KeysTellGramsApart(ref, cand, n);
    InjectiveOverlap(JoinWords, NGrams(ref, n), NGrams(cand, n), NGrams(ref, n) + NGrams(cand, n));
  }

  // ----- Properties of the shared count

  lemma SharedIsSymmetric(ref: seq<Word>, cand: seq<Word>, n: nat)
    ensures Shared(ref, cand, n) == Shared(cand, ref, n)
    ensures Shared(ref, cand, n) <= |NGrams(cand, n)| && Shared(ref, cand, n) <= |NGrams(ref, n)|
  {
    var r, c := multiset(NGrams(ref, n)), multiset(NGrams(cand, n));
    assert r * c == c * r;
    SubbagSize(r * c, c);
    SubbagSize(r * c, r);
  }

  function DropLast(gram: seq<Word>): seq<Word> {
    if gram == [] then [] else gram[..|gram| - 1]
  }

  lemma ShorterGrams(tokens: seq<Word>, n: nat)
    ensures multiset(Map(DropLast, NGrams(tokens, n + 1))) <= multiset(NGrams(tokens, n))
  {
    var longer, shorter := NGrams(tokens, n + 1), NGrams(tokens, n);
    assert Map(DropLast, longer) == shorter[..|longer|] by {
      forall i | 0 <= i < |longer|
        ensures DropLast(longer[i]) == shorter[i]
      {
      }
    }
    SliceSubbag(shorter, 0, |longer|);
  }

  /** The shared count never increases from order n to n + 1. */
  lemma SharedShrinksWithOrder(ref: seq<Word>, cand: seq<Word>, n: nat)
    ensures Shared(ref, cand, n + 1) <= Shared(ref, cand, n)
  {
    var r, c := NGrams(ref, n + 1), NGrams(cand, n + 1);
    MapOverlap(DropLast, r, c);
    ShorterGrams(ref, n);
    ShorterGrams(cand, n);
    SubbagSize(multiset(Map(DropLast, r)) * multiset(Map(DropLast, c)), multiset(NGrams(ref, n)) * multiset(NGrams(cand, n)));
  }

  lemma SliceOfSlice<T>(s: seq<T>, from: nat, to: nat, i: nat, n: nat)
    requires from <= to <= |s| && i + n <= to - from
    ensures s[from..to][i..i + n] == s[from + i..from + i + n]
  {
    var piece := s[from..to];
    var left, right := piece[i..i + n], s[from + i..from + i + n];
    forall k | 0 <= k < n
      ensures left[k] == right[k]
    {
      assert piece[i + k] == s[from + i + k];
    }
  }

  lemma PieceGrams(ref: seq<Word>, from: nat, to: nat, n: nat)
    requires from <= to <= |ref| && n <= to - from
    ensures var c := NGrams(ref[from..to], n); from + |c| <= |NGrams(ref, n)| && c == NGrams(ref, n)[from..from + |c|]
  {
    var r, c := NGrams(ref, n), NGrams(ref[from..to], n);
    var piece := r[from..from + |c|];
    forall i | 0 <= i < |c|
      ensures c[i] == piece[i]
    {
      SliceOfSlice(ref, from, to, i, n);
    }
  }

  /** A contiguous piece of the reference matches in full at every order. */
  lemma PieceMatchesInFull(ref: seq<Word>, from: nat, to: nat, n: nat)
    requires from <= to <= |ref|
    ensures Shared(ref, ref[from..to], n) == |NGrams(ref[from..to], n)|
  {
    var r, c := NGrams(ref, n), NGrams(ref[from..to], n);
    if n <= to - from {
      PieceGrams(ref, from, to, n);
      SliceSubbag(r, from, from + |c|);
    }
    Meet(multiset(r), multiset(c));
  }

  // ----- Modified precisions

  function Precision(matched: nat, total: nat): real
    requires total > 0
  {
    if matched == 0 then EPSILON / total as real else matched as real / total as real
  }

  function Orders(cand: seq<Word>): nat {
    if |cand| < MAX_NGRAM then |cand| else MAX_NGRAM
  }

  ghost function FirstPrecisions(ref: seq<Word>, cand: seq<Word>, orders: nat): (ps: seq<real>)
    requires orders <= |cand|
    ensures |ps| == orders
  {
    if orders == 0 then []
    else FirstPrecisions(ref, cand, orders - 1) + [Precision(Clipped(ref, cand, orders), |cand| - orders + 1)]
  }

  /** The precisions bleuScore takes the geometric mean of, one for each order up to
      min(4, number of candidate tokens). */
  method Precisions(ref: seq<Word>, cand: seq<Word>) returns (ps: seq<real>)
    ensures ps == FirstPrecisions(ref, cand, Orders(cand))
  {
    var maxN := MAX_NGRAM;
    if |cand| < maxN {
      maxN := |cand|;
    }
    ps := [];
    for n := 1 to maxN + 1
      invariant ps == FirstPrecisions(ref, cand, n - 1)
    {
      var total := |cand| - n + 1;
      var matched := ClippedNGramMatches(ref, cand, n);
      var p := SmoothedPrecision(matched, total);
      ps := ps + [p];
    }
  }

  method SmoothedPrecision(matched: nat, total: nat) returns (p: real)
    requires total > 0
    ensures p == Precision(matched, total)
  {
    p := matched as real / total as real;
    if matched == 0 {
      p := EPSILON / total as real;
    }
  }

  /** Every precision is in (0, 1], and it is 1 exactly when every candidate n-gram is
      credited. */
  lemma PrecisionRange(ref: seq<Word>, cand: seq<Word>, n: nat)
    requires Tokens(ref) && Tokens(cand) && 1 <= n <= |cand|
    ensures var p := Precision(Clipped(ref, cand, n), |cand| - n + 1);
            0.0 < p <= 1.0 && (p == 1.0 <==> multiset(NGrams(cand, n)) <= multiset(NGrams(ref, n)))
  {
    ClippedCountIsShared(ref, cand, n);
    SharedIsSymmetric(ref, cand, n);
    var r, c := multiset(NGrams(ref, n)), multiset(NGrams(cand, n));
    var m, total := Shared(ref, cand, n), |cand| - n + 1;
    assert |c| == total;
    if m == total {
      assert c == r * c by {
        assert c == r * c + (c - r * c);
        assert |c - r * c| == 0;
      }
    }
    if c <= r {
      assert r * c == c;
    }
    RatioRange(m as real, total as real);
    RatioRange(EPSILON, total as real);
  }

  lemma RatioRange(a: real, b: real)
    requires 0.0 <= a <= b && b >= 1.0
    ensures 0.0 <= a / b <= 1.0 && (a / b == 1.0 <==> a == b) && (a > 0.0 ==> a / b > 0.0)
  {
  }

  lemma PieceIsCredited(ref: seq<Word>, from: nat, to: nat, n: nat)
    requires Tokens(ref) && from <= to <= |ref| && 1 <= n <= to - from
    ensures Clipped(ref, ref[from..to], n) == (to - from) - n + 1
  {
    PieceMatchesInFull(ref, from, to, n);
    ClippedCountIsShared(ref, ref[from..to], n);
  }

  /** A candidate that is a contiguous piece of the reference scores 1 at every order. */
  lemma PieceScoresOne(ref: seq<Word>, from: nat, to: nat, n: nat)
    requires Tokens(ref) && from <= to <= |ref| && 1 <= n <= to - from
    ensures Precision(Clipped(ref, ref[from..to], n), (to - from) - n + 1) == 1.0
  {
    PieceIsCredited(ref, from, to, n);
    FullPrecision(Clipped(ref, ref[from..to], n), (to - from) - n + 1);
  }

  lemma FullPrecision(matched: nat, total: nat)
    requires matched == total > 0
    ensures Precision(matched, total) == 1.0
  {
  }
}
