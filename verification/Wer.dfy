/** Word error rate, pkg/qa/wer.go: the edit-distance table, which takes the diagonal
    without looking further when two words agree. */
module EditDistance {
  /** An alignment of two word sequences, written from its end. */
  datatype Script<T> =
    | Done
    | Keep(init: Script<T>, w: T)
    | Substitute(init: Script<T>, from: T, to: T)
    | Delete(init: Script<T>, w: T)
    | Insert(init: Script<T>, w: T)
  {
    function Source(): seq<T> {
      match this
      case Done => []
      case Keep(s, w) => s.Source() + [w]
      case Substitute(s, x, _) => s.Source() + [x]
      case Delete(s, w) => s.Source() + [w]
      case Insert(s, _) => s.Source()
    }

    function Target(): seq<T> {
      match this
      case Done => []
      case Keep(s, w) => s.Target() + [w]
      case Substitute(s, _, y) => s.Target() + [y]
      case Delete(s, _) => s.Target()
      case Insert(s, w) => s.Target() + [w]
    }

    /** S + D + I. */
    function Cost(): nat {
      match this
      case Done => 0
      case Keep(s, _) => s.Cost()
      case Substitute(s, _, _) => s.Cost() + 1
      case Delete(s, _) => s.Cost() + 1
      case Insert(s, _) => s.Cost() + 1
    }
  }

  ghost predicate Turns<T>(s: Script<T>, a: seq<T>, b: seq<T>) {
    s.Source() == a && s.Target() == b
  }

  /** d is the cost of some script from a to b, and no script is cheaper. */
  ghost predicate IsDistance<T(!new)>(d: int, a: seq<T>, b: seq<T>) {
    && (exists s: Script<T> :: Turns(s, a, b) && s.Cost() == d)
    && (forall s: Script<T> :: Turns(s, a, b) ==> d <= s.Cost())
  }

  function Min3(a: int, b: int, c: int): (m: int)
    ensures m in {a, b, c} && m <= a && m <= b && m <= c
  {
    var m := if b < a then b else a;
    if c < m then c else m
  }

  function Init<T>(a: seq<T>): seq<T>
    requires a != []
  {
    a[..|a| - 1]
  }

  function Last<T>(a: seq<T>): T
    requires a != []
  {
    a[|a| - 1]
  }

  /** The recurrence of the table. */
  function Lev<T(==)>(a: seq<T>, b: seq<T>): nat
    decreases |a| + |b|
  {
    if a == [] then |b|
    else if b == [] then |a|
    else if Last(a) == Last(b) then Lev(Init(a), Init(b))
    else Min3(Lev(Init(a), Init(b)) + 1, Lev(Init(a), b) + 1, Lev(a, Init(b)) + 1)
  }

  /** A cell differs from the cell above it and from the one to its left by at most one. */
  lemma {:induction false} Neighbours<T>(a: seq<T>, b: seq<T>)
    ensures a != [] ==> -1 <= Lev(a, b) - Lev(Init(a), b) <= 1
    ensures b != [] ==> -1 <= Lev(a, b) - Lev(a, Init(b)) <= 1
    decreases |a| + |b|
  {
    if a != [] && b != [] {
      Neighbours(Init(a), b);
      Neighbours(a, Init(b));
      Neighbours(Init(a), Init(b));
      CellsClose(Lev(Init(a), Init(b)), Lev(Init(a), b), Lev(a, Init(b)), Lev(a, b), Last(a) == Last(b));
    }
  }

  /** Four cells of the table: the corner, the two beside it and the one they give. */
  lemma CellsClose(corner: int, above: int, left: int, cell: int, same: bool)
    requires -1 <= above - corner <= 1 && -1 <= left - corner <= 1
    requires cell == if same then corner else Min3(corner + 1, above + 1, left + 1)
    ensures -1 <= cell - above <= 1 && -1 <= cell - left <= 1
  {
  }

  // ----- The recurrence is the least script cost

  lemma SnocParts<T>(a: seq<T>, w: T)
    ensures Init(a + [w]) == a && Last(a + [w]) == w
  {
  }

  /** The script read off the table from its last cell. */
  function Cheapest<T(==)>(a: seq<T>, b: seq<T>): Script<T>
    decreases |a| + |b|
  {
    if a == [] && b == [] then Done
    else if a == [] then Insert(Cheapest(a, Init(b)), Last(b))
    else if b == [] then Delete(Cheapest(Init(a), b), Last(a))
    else if Last(a) == Last(b) then Keep(Cheapest(Init(a), Init(b)), Last(a))
    else if Lev(a, b) == Lev(Init(a), Init(b)) + 1 then Substitute(Cheapest(Init(a), Init(b)), Last(a), Last(b))
    else if Lev(a, b) == Lev(Init(a), b) + 1 then Delete(Cheapest(Init(a), b), Last(a))
    else Insert(Cheapest(a, Init(b)), Last(b))
  }

  lemma {:induction false} CheapestIsAScript<T>(a: seq<T>, b: seq<T>)
    ensures Turns(Cheapest(a, b), a, b)
    decreases |a| + |b|
  {
    if a != [] {
      CheapestIsAScript(Init(a), b);
      assert a == Init(a) + [Last(a)];
    }
    if b != [] {
      CheapestIsAScript(a, Init(b));
      assert b == Init(b) + [Last(b)];
    }
    if a != [] && b != [] {
      CheapestIsAScript(Init(a), Init(b));
    }
  }

  lemma {:induction false} CheapestCost<T>(a: seq<T>, b: seq<T>)
    ensures Cheapest(a, b).Cost() == Lev(a, b)
    decreases |a| + |b|
  {
    if a != [] {
      CheapestCost(Init(a), b);
    }
    if b != [] {
      CheapestCost(a, Init(b));
    }
    if a != [] && b != [] {
      CheapestCost(Init(a), Init(b));
    }
  }

  lemma CheapestExists<T>(a: seq<T>, b: seq<T>) returns (s: Script<T>)
    ensures Turns(s, a, b) && s.Cost() == Lev(a, b)
  {
    CheapestIsAScript(a, b);
    CheapestCost(a, b);
    s := Cheapest(a, b);
  }

  lemma {:induction false} NoScriptIsCheaper<T>(s: Script<T>)
    ensures Lev(s.Source(), s.Target()) <= s.Cost()
  {
    var a, b := s.Source(), s.Target();
    Neighbours(a, b);
    match s
    case Done =>
    case Keep(t, w) =>
      SnocParts(t.Source(), w);
      SnocParts(t.Target(), w);
      NoScriptIsCheaper(t);
    case Substitute(t, x, y) =>
      SnocParts(t.Source(), x);
      SnocParts(t.Target(), y);
      Neighbours(t.Source(), b);
      NoScriptIsCheaper(t);
    case Delete(t, w) =>
      SnocParts(t.Source(), w);
      NoScriptIsCheaper(t);
    case Insert(t, w) =>
      SnocParts(t.Target(), w);
      NoScriptIsCheaper(t);
  }

  lemma LevIsDistance<T(!new)>(a: seq<T>, b: seq<T>)
    ensures IsDistance(Lev(a, b), a, b)
  {
    var cheapest := CheapestExists(a, b);
    forall s: Script<T> | Turns(s, a, b)
      ensures Lev(a, b) <= s.Cost()
    {
      NoScriptIsCheaper(s);
    }
  }

  // ----- A metric on word sequences

  function Flip<T>(s: Script<T>): (r: Script<T>)
    ensures r.Source() == s.Target() && r.Target() == s.Source() && r.Cost() == s.Cost()
  {
    match s
    case Done => Done
    case Keep(t, w) => Keep(Flip(t), w)
    case Substitute(t, x, y) => Substitute(Flip(t), y, x)
    case Delete(t, w) => Insert(Flip(t), w)
    case Insert(t, w) => Delete(Flip(t), w)
  }

  /** First s, then t. */
  function Compose<T>(s: Script<T>, t: Script<T>): (r: Script<T>)
    requires s.Target() == t.Source()
    ensures r.Source() == s.Source() && r.Target() == t.Target() && r.Cost() <= s.Cost() + t.Cost()
    decreases s, t
  {
    if t.Insert? then Insert(Compose(s, t.init), t.w)
    else if s.Delete? then Delete(Compose(s.init, t), s.w)
    else if s.Done? || t.Done? then Done
    else
      assert s.init.Target() == t.init.Source() by {
        assert s.init.Target() == Init(s.Target()) && t.init.Source() == Init(t.Source());
      }
      var r := Compose(s.init, t.init);
      assert Last(s.Target()) == Last(t.Source());
      match (s, t)
      case (Keep(_, w), Keep(_, _)) => Keep(r, w)
      case (Keep(_, w), Substitute(_, _, z)) => Substitute(r, w, z)
      case (Keep(_, w), Delete(_, _)) => Delete(r, w)
      case (Substitute(_, x, y), Keep(_, _)) => Substitute(r, x, y)
      case (Substitute(_, x, _), Substitute(_, _, z)) => Substitute(r, x, z)
      case (Substitute(_, x, _), Delete(_, _)) => Delete(r, x)
      case (Insert(_, y), Keep(_, _)) => Insert(r, y)
      case (Insert(_, _), Substitute(_, _, z)) => Insert(r, z)
      case (Insert(_, _), Delete(_, _)) => r
  }

  function Concat<T>(s: Script<T>, t: Script<T>): (r: Script<T>)
    ensures r.Source() == s.Source() + t.Source() && r.Target() == s.Target() + t.Target()
    ensures r.Cost() == s.Cost() + t.Cost()
    decreases t
  {
    match t
    case Done => s
    case Keep(u, w) => Keep(Concat(s, u), w)
    case Substitute(u, x, y) => Substitute(Concat(s, u), x, y)
    case Delete(u, w) => Delete(Concat(s, u), w)
    case Insert(u, w) => Insert(Concat(s, u), w)
  }

  lemma {:induction false} Symmetric<T>(a: seq<T>, b: seq<T>)
    ensures Lev(a, b) == Lev(b, a)
  {
    var s := CheapestExists(a, b);
    var t := CheapestExists(b, a);
    NoScriptIsCheaper(Flip(s));
    NoScriptIsCheaper(Flip(t));
  }

  lemma Triangle<T>(a: seq<T>, b: seq<T>, c: seq<T>)
    ensures Lev(a, c) <= Lev(a, b) + Lev(b, c)
  {
    var s := CheapestExists(a, b);
    var t := CheapestExists(b, c);
    NoScriptIsCheaper(Compose(s, t));
  }

  lemma Subadditive<T>(a: seq<T>, b: seq<T>, c: seq<T>, d: seq<T>)
    ensures Lev(a + c, b + d) <= Lev(a, b) + Lev(c, d)
  {
    var s := CheapestExists(a, b);
    var t := CheapestExists(c, d);
    NoScriptIsCheaper(Concat(s, t));
  }

  lemma {:induction false} FreeScriptKeepsAll<T>(s: Script<T>)
    ensures s.Cost() == 0 ==> s.Source() == s.Target()
    ensures |s.Source()| <= |s.Target()| + s.Cost() && |s.Target()| <= |s.Source()| + s.Cost()
  {
    if !s.Done? {
      FreeScriptKeepsAll(s.init);
    }
  }

  lemma {:induction false} AtMostTheLonger<T>(a: seq<T>, b: seq<T>)
    ensures Lev(a, b) <= if |a| < |b| then |b| else |a|
    decreases |a| + |b|
  {
    if a != [] && b != [] {
      AtMostTheLonger(Init(a), Init(b));
    }
  }

  lemma {:induction false} SelfIsFree<T>(a: seq<T>)
    ensures Lev(a, a) == 0
  {
    if a != [] {
      SelfIsFree(Init(a));
    }
  }

  /** Zero exactly for equal sequences, and between the length difference and the
      greater length. */
  lemma {:induction false} ZeroAndBounds<T>(a: seq<T>, b: seq<T>)
    ensures Lev(a, b) == 0 <==> a == b
    ensures |a| - |b| <= Lev(a, b) && |b| - |a| <= Lev(a, b)
    ensures Lev(a, b) <= if |a| < |b| then |b| else |a|
  {
    var s := CheapestExists(a, b);
    FreeScriptKeepsAll(s);
    AtMostTheLonger(a, b);
    SelfIsFree(a);
  }
}

module Wer {
  import opened EditDistance

  type Word = string

  /** The value that belongs in cell (i, j) of the table. */
  ghost function Cell(ref: seq<Word>, hyp: seq<Word>, i: nat, j: nat): nat
    requires i <= |ref| && j <= |hyp|
  {
    Lev(ref[..i], hyp[..j])
  }

  lemma Borders(ref: seq<Word>, hyp: seq<Word>, k: nat)
    ensures k <= |ref| ==> Cell(ref, hyp, k, 0) == k
    ensures k <= |hyp| ==> Cell(ref, hyp, 0, k) == k
  {
  }

  lemma Inner(ref: seq<Word>, hyp: seq<Word>, i: nat, j: nat)
    requires 0 < i <= |ref| && 0 < j <= |hyp|
    ensures Cell(ref, hyp, i, j) ==
            if ref[i - 1] == hyp[j - 1] then Cell(ref, hyp, i - 1, j - 1)
            else Min3(Cell(ref, hyp, i - 1, j - 1) + 1, Cell(ref, hyp, i - 1, j) + 1, Cell(ref, hyp, i, j - 1) + 1)
  {
    assert Init(ref[..i]) == ref[..i - 1] && Init(hyp[..j]) == hyp[..j - 1];
  }

  ghost predicate Shaped(dp: array2<int>, ref: seq<Word>, hyp: seq<Word>) {
    dp.Length0 == |ref| + 1 && dp.Length1 == |hyp| + 1
  }

  /** One row of the table, left to right. */
  method FillRow(dp: array2<int>, ref: seq<Word>, hyp: seq<Word>, i: nat)
    requires Shaped(dp, ref, hyp) && 0 < i <= |ref|
    requires forall k, j :: 0 <= k < i && 0 <= j <= |hyp| ==> dp[k, j] == Cell(ref, hyp, k, j)
    requires dp[i, 0] == Cell(ref, hyp, i, 0)
    modifies dp
    ensures forall k, j :: 0 <= k <= |ref| && 0 <= j <= |hyp| && k != i ==> dp[k, j] == old(dp[k, j])
    ensures forall j :: 0 <= j <= |hyp| ==> dp[i, j] == Cell(ref, hyp, i, j)
  {
    for j := 1 to |hyp| + 1
      invariant forall k, l :: 0 <= k <= |ref| && 0 <= l <= |hyp| && k != i ==> dp[k, l] == old(dp[k, l])
      invariant forall l :: 0 <= l < j ==> dp[i, l] == Cell(ref, hyp, i, l)
    {
      Inner(ref, hyp, i, j);
      if ref[i - 1] == hyp[j - 1] {
        dp[i, j] := dp[i - 1, j - 1];
        continue;
      }
      var sub := dp[i - 1, j - 1] + 1;
      var del := dp[i - 1, j] + 1;
      var ins := dp[i, j - 1] + 1;
      dp[i, j] := Min3(sub, del, ins);
    }
  }

  /** S + D + I over the number of reference words, for tokenized input. */
  method WordErrorRate(ref: seq<Word>, hyp: seq<Word>) returns (rate: real)
    ensures ref == [] ==> rate == if hyp == [] then 0.0 else 1.0
    ensures ref != [] ==> rate == Lev(ref, hyp) as real / |ref| as real
  {
    var n, m := |ref|, |hyp|;
    if n == 0 {
      return if m == 0 then 0.0 else 1.0;
    }
    var dp := new int[n + 1, m + 1];
    for i := 0 to n + 1
      invariant forall k :: 0 <= k < i ==> dp[k, 0] == Cell(ref, hyp, k, 0)
    {
      dp[i, 0] := i;
      Borders(ref, hyp, i);
    }
    for j := 0 to m + 1
      invariant forall k :: 0 <= k <= n ==> dp[k, 0] == Cell(ref, hyp, k, 0)
      invariant forall k :: 0 <= k < j ==> dp[0, k] == Cell(ref, hyp, 0, k)
    {
      dp[0, j] := j;
      Borders(ref, hyp, j);
    }
    for i := 1 to n + 1
      invariant forall k :: 0 <= k <= n ==> dp[k, 0] == Cell(ref, hyp, k, 0)
      invariant forall k, j :: 0 <= k < i && 0 <= j <= m ==> dp[k, j] == Cell(ref, hyp, k, j)
    {
      FillRow(dp, ref, hyp, i);
    }
    assert ref[..n] == ref && hyp[..m] == hyp;
    rate := dp[n, m] as real / n as real;
  }

  /** For a non-empty reference the rate is zero exactly for a perfect transcript, and
      it exceeds one only by as many words as the transcript is longer. */
  lemma RateBounds(ref: seq<Word>, hyp: seq<Word>)
    requires ref != []
    ensures var rate := Lev(ref, hyp) as real / |ref| as real;
            && (rate == 0.0 <==> ref == hyp)
            && (|hyp| <= |ref| ==> rate <= 1.0)
            && (|hyp| > |ref| ==> rate <= |hyp| as real / |ref| as real)
  {
    ZeroAndBounds(ref, hyp);
    var n, d := |ref| as real, Lev(ref, hyp) as real;
    assert n > 0.0;
    Monotone(d, (if |hyp| <= |ref| then |ref| else |hyp|) as real, n);
  }

  lemma Monotone(a: real, b: real, n: real)
    requires a <= b && n > 0.0
    ensures a / n <= b / n
    ensures a / n == 0.0 <==> a == 0.0
    ensures n / n == 1.0
  {
  }
}
