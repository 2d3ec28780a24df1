/** The stake snapshot of one quorum: filtering, total, percentages and the HHI, in exact reals. */
module StakeConcentration {
  import opened Common
  import opened Operators
  import opened RealOrder

  // ---------------------------------------------------------------- sums over stake lists

  function Sum(xs: seq<real>): real {
    if |xs| == 0 then 0.0 else Sum(xs[..|xs| - 1]) + xs[|xs| - 1]
  }

  function Sq(x: real): real { x * x }

  function Squares(xs: seq<real>): (r: seq<real>)
    ensures |r| == |xs|
  {
    seq(|xs|, i requires 0 <= i < |xs| => Sq(xs[i]))
  }

  function SumOfSquares(xs: seq<real>): real {
    Sum(Squares(xs))
  }

  lemma SquaresSnoc(xs: seq<real>)
    requires |xs| > 0
    ensures SumOfSquares(xs) == SumOfSquares(xs[..|xs| - 1]) + Sq(xs[|xs| - 1])
  {
    assert Squares(xs)[..|xs| - 1] == Squares(xs[..|xs| - 1]);
  }

  /** Sum of squared distances from `x`. */
  function Spread(xs: seq<real>, x: real): real {
    if |xs| == 0 then 0.0
    else Spread(xs[..|xs| - 1], x) + (xs[|xs| - 1] - x) * (xs[|xs| - 1] - x)
  }

  ghost predicate AllPositive(xs: seq<real>) {
    forall i :: 0 <= i < |xs| ==> xs[i] > 0.0
  }

  ghost predicate AllEqual(xs: seq<real>) {
    forall i, j :: 0 <= i < |xs| && 0 <= j < |xs| ==> xs[i] == xs[j]
  }

  lemma {:induction false} SpreadMeaning(xs: seq<real>, x: real)
    ensures Spread(xs, x) >= 0.0
    ensures Spread(xs, x) == 0.0 <==> forall i :: 0 <= i < |xs| ==> xs[i] == x
  {
    if |xs| > 0 {
      var n := |xs| - 1;
      SpreadMeaning(xs[..n], x);
      Square(xs[n] - x);
      assert forall i :: 0 <= i < n ==> xs[..n][i] == xs[i];
    }
  }

  lemma {:induction false} SpreadExpanded(xs: seq<real>, x: real)
    ensures Spread(xs, x) == SumOfSquares(xs) - 2.0 * (x * Sum(xs)) + |xs| as real * (x * x)
  {
    if |xs| > 0 {
      var n := |xs| - 1;
      SpreadExpanded(xs[..n], x);
      SquaresSnoc(xs);
      SpreadStep(SumOfSquares(xs[..n]), Sum(xs[..n]), n as real, xs[n], x);
    }
  }

  lemma SpreadStep(q: real, s: real, n: real, y: real, x: real)
    ensures (q - 2.0 * (x * s) + n * (x * x)) + (y - x) * (y - x)
         == (q + y * y) - 2.0 * (x * (s + y)) + (n + 1.0) * (x * x)
  {
  }

  /** How far n times the sum of squares exceeds the square of the sum. */
  function Excess(xs: seq<real>): real {
    |xs| as real * SumOfSquares(xs) - Sum(xs) * Sum(xs)
  }

  lemma ExcessStep(q: real, s: real, n: real, x: real)
    ensures (n + 1.0) * (q + x * x) - (s + x) * (s + x)
         == (n * q - s * s) + (q - 2.0 * (x * s) + n * (x * x))
  {
  }

  lemma ExcessSnoc(xs: seq<real>)
    requires |xs| > 0
    ensures Excess(xs) == Excess(xs[..|xs| - 1]) + Spread(xs[..|xs| - 1], xs[|xs| - 1])
  {
    var n := |xs| - 1;
    SpreadExpanded(xs[..n], xs[n]);
    SquaresSnoc(xs);
    ExcessStep(SumOfSquares(xs[..n]), Sum(xs[..n]), n as real, xs[n]);
  }

  /** The excess is never negative and vanishes exactly when all stakes are equal. */
  lemma {:induction false} ExcessMeaning(xs: seq<real>)
    ensures Excess(xs) >= 0.0
    ensures Excess(xs) == 0.0 <==> AllEqual(xs)
  {
    if |xs| > 0 {
      var n := |xs| - 1;
      var front := xs[..n];
      ExcessSnoc(xs);
      ExcessMeaning(front);
      SpreadMeaning(front, xs[n]);
      assert forall i :: 0 <= i < n ==> front[i] == xs[i];
      if AllEqual(xs) { assert AllEqual(front); }
    }
  }

  lemma {:induction false} SumPositive(xs: seq<real>)
    requires AllPositive(xs)
    ensures Sum(xs) >= 0.0
    ensures |xs| > 0 ==> Sum(xs) > 0.0
  {
    if |xs| > 0 { SumPositive(xs[..|xs| - 1]); }
  }

  /** The square of the sum exceeds the sum of squares, strictly from two stakes on. */
  lemma {:induction false} SquareOfSum(xs: seq<real>)
    requires AllPositive(xs)
    ensures SumOfSquares(xs) <= Sum(xs) * Sum(xs)
    ensures SumOfSquares(xs) == Sum(xs) * Sum(xs) <==> |xs| <= 1
  {
    if |xs| > 0 {
      var n := |xs| - 1;
      SquareOfSum(xs[..n]);
      SquaresSnoc(xs);
      SumPositive(xs[..n]);
      SquareStep(SumOfSquares(xs[..n]), Sum(xs[..n]), xs[n]);
    }
  }

  lemma SquareStep(q: real, s: real, x: real)
    requires q <= s * s && s >= 0.0 && x > 0.0
    ensures q + x * x <= (s + x) * (s + x)
    ensures s > 0.0 ==> q + x * x < (s + x) * (s + x)
    ensures s == 0.0 && q == 0.0 ==> q + x * x == (s + x) * (s + x)
  {
    assert (s + x) * (s + x) == s * s + 2.0 * (s * x) + x * x;
    Nonnegative(s, x);
    if s > 0.0 { Positive(s, x); }
  }

  // ---------------------------------------------------------------- percentages and HHI

  function Pct(stake: real, total: real): real
    requires total > 0.0
  {
    stake / total * 100.0
  }

  function PctSum(xs: seq<real>, total: real): real
    requires total > 0.0
  {
    if |xs| == 0 then 0.0 else PctSum(xs[..|xs| - 1], total) + Pct(xs[|xs| - 1], total)
  }

  function Hhi(xs: seq<real>, total: real): real
    requires total > 0.0
  {
    if |xs| == 0 then 0.0
    else
      Hhi(xs[..|xs| - 1], total) + Sq(Pct(xs[|xs| - 1], total))
  }

  lemma PctScaled(stake: real, total: real)
    requires total > 0.0
    ensures Pct(stake, total) * total == 100.0 * stake
    ensures Sq(Pct(stake, total)) * (total * total) == 10000.0 * Sq(stake)
  {
    var share := stake / total;
    assert share * total == stake;
    var p := Pct(stake, total);
    assert p == 100.0 * share;
    assert (p * p) * (total * total) == (p * total) * (p * total);
  }

  lemma {:induction false} PctSumScaled(xs: seq<real>, total: real)
    requires total > 0.0
    ensures PctSum(xs, total) * total == 100.0 * Sum(xs)
  {
    if |xs| > 0 {
      var n := |xs| - 1;
      PctSumScaled(xs[..n], total);
      PctScaled(xs[n], total);
      Distribute(PctSum(xs[..n], total), Pct(xs[n], total), total);
    }
  }

  lemma {:induction false} HhiScaled(xs: seq<real>, total: real)
    requires total > 0.0
    ensures Hhi(xs, total) * (total * total) == 10000.0 * SumOfSquares(xs)
  {
    if |xs| > 0 {
      var n := |xs| - 1;
      HhiScaled(xs[..n], total);
      SquaresSnoc(xs);
      PctScaled(xs[n], total);
      Distribute(Hhi(xs[..n], total), Sq(Pct(xs[n], total)), total * total);
    }
  }

  lemma SqPositive(t: real)
    requires t > 0.0
    ensures Sq(t) > 0.0
  {
    var d := Times(t, t);
  }

  function SquaredTotal(t: real): (d: real)
    requires t > 0.0
    ensures d > 0.0
  {
    SqPositive(t);
    Sq(t)
  }

  /** HHI depends on the stakes only through their sum of squares and their total. */
  lemma HhiOverSquare(xs: seq<real>, total: real)
    requires total > 0.0
    ensures Hhi(xs, total) == 10000.0 * SumOfSquares(xs) / SquaredTotal(total)
  {
    HhiScaled(xs, total);
    var h := Quotient(10000.0 * SumOfSquares(xs), SquaredTotal(total));
    SameQuotient(Hhi(xs, total), h, SquaredTotal(total));
  }

  /** The percentages of a quorum add up to 100. */
  lemma PercentagesAddUp(xs: seq<real>)
    requires AllPositive(xs) && |xs| > 0
    ensures Sum(xs) > 0.0 && PctSum(xs, Sum(xs)) == 100.0
  {
    SumPositive(xs);
    PctSumScaled(xs, Sum(xs));
    ScaledOrder(PctSum(xs, Sum(xs)), 100.0, Sum(xs), 100.0 * Sum(xs), 100.0 * Sum(xs));
  }

  /**
   * HHI of n positive stakes lies in [10000/n, 10000]; the lower end means equal stakes and the
   * upper end a single operator.
   */
  lemma HhiBounds(xs: seq<real>)
    requires AllPositive(xs) && |xs| > 0
    ensures Sum(xs) > 0.0
    ensures 10000.0 / |xs| as real <= Hhi(xs, Sum(xs)) <= 10000.0
    ensures Hhi(xs, Sum(xs)) == 10000.0 / |xs| as real <==> AllEqual(xs)
    ensures Hhi(xs, Sum(xs)) == 10000.0 <==> |xs| == 1
  {
    var q, tt := HhiFacts(xs);
    HhiUpper(Hhi(xs, Sum(xs)), q, tt);
    HhiLower(Hhi(xs, Sum(xs)), q, tt, |xs| as real);
  }

  /** HHI in terms of the sum of squares q and the squared total tt. */
  lemma HhiFacts(xs: seq<real>) returns (q: real, tt: real)
    requires AllPositive(xs) && |xs| > 0
    ensures Sum(xs) > 0.0 && tt > 0.0 && Hhi(xs, Sum(xs)) * tt == 10000.0 * q
    ensures q <= tt && (q == tt <==> |xs| == 1)
    ensures |xs| as real * q >= tt && (|xs| as real * q == tt <==> AllEqual(xs))
  {
    SumPositive(xs);
    HhiScaled(xs, Sum(xs));
    SquareOfSum(xs);
    ExcessMeaning(xs);
    tt := SquaredTotal(Sum(xs));
    q := SumOfSquares(xs);
  }

  lemma HhiUpper(h: real, q: real, tt: real)
    requires tt > 0.0 && h * tt == 10000.0 * q && q <= tt
    ensures h <= 10000.0
    ensures h == 10000.0 <==> q == tt
  {
    ScaledOrder(h, 10000.0, tt, 10000.0 * q, 10000.0 * tt);
  }

  lemma HhiLower(h: real, q: real, tt: real, n: real)
    requires tt > 0.0 && n > 0.0 && h * tt == 10000.0 * q && n * q >= tt
    ensures 10000.0 / n <= h
    ensures h == 10000.0 / n <==> n * q == tt
  {
    var low := Quotient(10000.0, n);
    var hn, nq := h * n, n * q;
    assert hn * tt == 10000.0 * nq by { assert hn * tt == (h * tt) * n; }
    ScaledOrder(10000.0, hn, tt, 10000.0 * tt, 10000.0 * nq);
    ScaledOrder(low, h, n, 10000.0, hn);
  }

  lemma {:induction false} SumConcat(a: seq<real>, b: seq<real>)
    ensures Sum(a + b) == Sum(a) + Sum(b)
    decreases |b|
  {
    if |b| == 0 {
      assert a + b == a;
    } else {
      SumConcat(a, b[..|b| - 1]);
      assert (a + b)[..|a + b| - 1] == a + b[..|b| - 1];
    }
  }

  lemma SumOne(x: real)
    ensures Sum([x]) == x
  {
    assert [x][..0] == [];
  }

  /** Replacing two entries by one changes the sum by the difference, wherever they stand. */
  lemma SumMerged(front: seq<real>, a: real, middle: seq<real>, b: real, back: seq<real>, c: real)
    ensures Sum(front + [c] + middle + back) == Sum(front + [a] + middle + [b] + back) - a - b + c
  {
    hide Sum;
    SumConcat(front, [a]);
    SumConcat(front + [a], middle);
    SumConcat(front + [a] + middle, [b]);
    SumConcat(front + [a] + middle + [b], back);
    SumConcat(front, [c]);
    SumConcat(front + [c], middle);
    SumConcat(front + [c] + middle, back);
    SumOne(a);
    SumOne(b);
    SumOne(c);
  }

  lemma SquaresMerged(front: seq<real>, a: real, middle: seq<real>, b: real, back: seq<real>)
    ensures SumOfSquares(front + [a + b] + middle + back)
         == SumOfSquares(front + [a] + middle + [b] + back) + 2.0 * (a * b)
  {
    var f, m, k := Squares(front), Squares(middle), Squares(back);
    assert Squares(front + [a] + middle + [b] + back) == f + [Sq(a)] + m + [Sq(b)] + k;
    assert Squares(front + [a + b] + middle + back) == f + [Sq(a + b)] + m + k;
    SumMerged(f, Sq(a), m, Sq(b), k, Sq(a + b));
    SquareOfBoth(a, b);
  }

  lemma SquareOfBoth(a: real, b: real)
    ensures Sq(a + b) == Sq(a) + Sq(b) + 2.0 * (a * b)
  {
  }

  function Rise(a: real, b: real, total: real): real
    requires total > 0.0
  {
    20000.0 * (a * b) / SquaredTotal(total)
  }

  /** Merging two operators raises HHI by exactly 20000 a b / T^2, wherever they stand in the list. */
  lemma MergeRaisesHhi(front: seq<real>, a: real, middle: seq<real>, b: real, back: seq<real>)
    requires AllPositive(front + [a] + middle + [b] + back)
    ensures var apart, merged := front + [a] + middle + [b] + back, front + [a + b] + middle + back;
      && Sum(apart) == Sum(merged) > 0.0
      && Hhi(merged, Sum(merged)) == Hhi(apart, Sum(apart)) + Rise(a, b, Sum(apart))
  {
    var apart, merged := front + [a] + middle + [b] + back, front + [a + b] + middle + back;
    SumMerged(front, a, middle, b, back, a + b);
    SquaresMerged(front, a, middle, b, back);
    SumPositive(apart);
    MergedHhi(apart, merged, Sum(apart), a, b);
  }

  lemma MergedHhi(apart: seq<real>, merged: seq<real>, t: real, a: real, b: real)
    requires t > 0.0
    requires SumOfSquares(merged) == SumOfSquares(apart) + 2.0 * (a * b)
    ensures Hhi(merged, t) == Hhi(apart, t) + Rise(a, b, t)
  {
    HhiOverSquare(apart, t);
    HhiOverSquare(merged, t);
    QuotientOfSum(10000.0 * SumOfSquares(apart), 20000.0 * (a * b), SquaredTotal(t));
  }

  lemma QuotientOfSum(x: real, y: real, d: real)
    requires d > 0.0
    ensures (x + y) / d == x / d + y / d
  {
  }

  lemma SumAround(front: seq<real>, x: real, rest: seq<real>)
    ensures Sum(front + [x] + rest) == Sum(front) + x + Sum(rest)
  {
    hide Sum;
    SumConcat(front + [x], rest);
    SumConcat(front, [x]);
    SumOne(x);
  }

  lemma SumRemoveAt(xs: seq<real>, j: nat)
    requires j < |xs|
    ensures Sum(xs) == Sum(Without(xs, j)) + xs[j]
  {
    hide Sum;
    Around(xs, j);
    SumAround(xs[..j], xs[j], xs[j + 1..]);
    SumConcat(xs[..j], xs[j + 1..]);
  }

  lemma {:induction false} SumPermutation(a: seq<real>, b: seq<real>)
    requires multiset(a) == multiset(b)
    ensures Sum(a) == Sum(b)
    decreases |a|
  {
    hide Sum, Without;
    if a == [] {
      EmptyBag(a, b);
    } else {
      var j := StrikeHead(a, b);
      SumPermutation(Without(a, 0), Without(b, j));
      SumRemoveAt(a, 0);
      SumRemoveAt(b, j);
    }
  }

  lemma SquaresRemoveAt(xs: seq<real>, j: nat)
    requires j < |xs|
    ensures multiset(Squares(xs)) == multiset(Squares(Without(xs, j))) + multiset{Sq(xs[j])}
  {
    hide Sq;
    RemoveAt(Squares(xs), j);
    assert Without(Squares(xs), j) == Squares(Without(xs, j));
  }

  lemma {:induction false} SquaresPermutation(a: seq<real>, b: seq<real>)
    requires multiset(a) == multiset(b)
    ensures multiset(Squares(a)) == multiset(Squares(b))
    decreases |a|
  {
    hide Squares, Sq, Without;
    if a == [] {
      EmptyBag(a, b);
    } else {
      var j := StrikeHead(a, b);
      SquaresPermutation(Without(a, 0), Without(b, j));
      SquaresRemoveAt(a, 0);
      SquaresRemoveAt(b, j);
    }
  }

  /** The order in which operators are listed does not matter. */
  lemma HhiIgnoresOrder(a: seq<real>, b: seq<real>)
    requires multiset(a) == multiset(b)
    requires Sum(a) > 0.0
    ensures Sum(a) == Sum(b) && Hhi(a, Sum(a)) == Hhi(b, Sum(b))
  {
    SumPermutation(a, b);
    SquaresPermutation(a, b);
    SumPermutation(Squares(a), Squares(b));
    SameSquaresSameHhi(a, b, Sum(a));
  }

  lemma SameSquaresSameHhi(a: seq<real>, b: seq<real>, t: real)
    requires t > 0.0 && SumOfSquares(a) == SumOfSquares(b)
    ensures Hhi(a, t) == Hhi(b, t)
  {
    HhiOverSquare(a, t);
    HhiOverSquare(b, t);
  }

  // ---------------------------------------------------------------- the snapshot of a quorum

  datatype OpStake = OpStake(id: OperatorId, stake: int)

  datatype OperatorRow = OperatorRow(operatorId: OperatorPrefix, stake: int, stakePct: real)

  datatype Snapshot = Snapshot(totalStake: int, operatorCount: nat, hhi: real, operators: seq<OperatorRow>)

  /** The operators whose stake could be read and is positive, in list order. */
  function Staked(operators: seq<OperatorInfo>, answers: seq<Option<int>>): seq<OpStake>
    requires |answers| == |operators|
  {
    if |operators| == 0 then []
    else
      var n := |operators| - 1;
      Staked(operators[..n], answers[..n])
      + if answers[n].Some? && answers[n].value > 0 then [OpStake(operators[n].id, answers[n].value)] else []
  }

  function AsReals(stakes: seq<OpStake>): (xs: seq<real>)
    ensures |xs| == |stakes|
  {
    seq(|stakes|, i requires 0 <= i < |stakes| => stakes[i].stake as real)
  }

  lemma {:induction false} StakedPositive(operators: seq<OperatorInfo>, answers: seq<Option<int>>)
    requires |answers| == |operators|
    ensures forall i :: 0 <= i < |Staked(operators, answers)| ==> Staked(operators, answers)[i].stake > 0
  {
    if |operators| > 0 { StakedPositive(operators[..|operators| - 1], answers[..|operators| - 1]); }
  }

  lemma SumSnoc(xs: seq<real>, x: real)
    ensures Sum(xs + [x]) == Sum(xs) + x
  {
    assert (xs + [x])[..|xs|] == xs;
  }

  lemma HhiSnoc(xs: seq<real>, x: real, total: real)
    requires total > 0.0
    ensures Hhi(xs + [x], total) == Hhi(xs, total) + Sq(Pct(x, total))
  {
    assert (xs + [x])[..|xs|] == xs;
  }

  /** `answers[i]` is the stake read for the i-th operator, None when the call failed. */
  method TakeSnapshot(operators: seq<OperatorInfo>, answers: seq<Option<int>>) returns (snapshot: Option<Snapshot>)
    requires |answers| == |operators|
    ensures snapshot == None <==> Staked(operators, answers) == []
    ensures snapshot.Some? ==>
      var stakes, s := Staked(operators, answers), snapshot.value;
      var xs := AsReals(stakes);
      && AllPositive(xs) && s.totalStake as real == Sum(xs) > 0.0
      && s.operatorCount == |stakes| && s.hhi == Hhi(xs, Sum(xs))
      && |s.operators| == |stakes|
      && forall i :: 0 <= i < |stakes| ==>
           s.operators[i] == OperatorRow(Prefix(stakes[i].id), stakes[i].stake, Pct(xs[i], Sum(xs)))
  {
    var stakes, totalStake := FilterStakes(operators, answers);
    StakedPositive(operators, answers);
    SumPositive(AsReals(stakes));
    if totalStake == 0 || |stakes| == 0 { return None; }
    var hhi := ComputeHhi(stakes, totalStake);
    var rows := [];
    var i := 0;
    while i < |stakes|
      invariant 0 <= i <= |stakes| && |rows| == i
      invariant forall k :: 0 <= k < i ==>
        rows[k] == OperatorRow(Prefix(stakes[k].id), stakes[k].stake, Pct(AsReals(stakes)[k], totalStake as real))
    {
      var pct := stakes[i].stake as real / totalStake as real;
      rows := rows + [OperatorRow(Prefix(stakes[i].id), stakes[i].stake, pct * 100.0)];
      i := i + 1;
    }
    snapshot := Some(Snapshot(totalStake, |stakes|, hhi, rows));
  }

  lemma StakedSnoc(operators: seq<OperatorInfo>, answers: seq<Option<int>>, i: nat)
    requires i < |answers| == |operators|
    ensures Staked(operators[..i + 1], answers[..i + 1])
         == if answers[i].Some? && answers[i].value > 0
            then Staked(operators[..i], answers[..i]) + [OpStake(operators[i].id, answers[i].value)]
            else Staked(operators[..i], answers[..i])
  {
    assert operators[..i + 1][..i] == operators[..i] && answers[..i + 1][..i] == answers[..i];
  }

  lemma TotalSnoc(stakes: seq<OpStake>, s: OpStake)
    ensures Sum(AsReals(stakes + [s])) == Sum(AsReals(stakes)) + s.stake as real
  {
    assert AsReals(stakes + [s]) == AsReals(stakes) + [s.stake as real];
    SumSnoc(AsReals(stakes), s.stake as real);
  }

  /**
   * One entry for each of the first `n` operators whose stake was read and is positive, in list order,
   * with its own ID; `keep` tells which those are and `item` what they are.
   */
  lemma {:induction false} StakedInOrder(operators: seq<OperatorInfo>, answers: seq<Option<int>>,
                                         keep: nat -> bool, item: nat -> OpStake, n: nat)
    returns (order: seq<nat>)
    requires n <= |answers| == |operators|
    requires forall i :: 0 <= i < |answers| ==>
      && (keep(i) <==> answers[i].Some? && answers[i].value > 0)
      && (keep(i) ==> item(i) == OpStake(operators[i].id, answers[i].value))
    ensures Lists(Staked(operators[..n], answers[..n]), order, n, keep, item)
  {
    hide Staked, Lists;
    if n == 0 {
      order := [];
      NothingStaked(operators, answers);
      ListsNone(keep, item);
    } else {
      var front := StakedInOrder(operators, answers, keep, item, n - 1);
      ListsSnoc(Staked(operators[..n - 1], answers[..n - 1]), front, n - 1, keep, item);
      StakedSnoc(operators, answers, n - 1);
      order := if keep(n - 1) then front + [n - 1] else front;
    }
  }

  lemma NothingStaked(operators: seq<OperatorInfo>, answers: seq<Option<int>>)
    requires |answers| == |operators|
    ensures Staked(operators[..0], answers[..0]) == []
  {
  }

  method FilterStakes(operators: seq<OperatorInfo>, answers: seq<Option<int>>)
    returns (stakes: seq<OpStake>, totalStake: int)
    requires |answers| == |operators|
    ensures stakes == Staked(operators, answers)
    ensures totalStake as real == Sum(AsReals(stakes))
  {
    stakes, totalStake := [], 0;
    var i := 0;
    while i < |operators|
      invariant 0 <= i <= |operators|
      invariant stakes == Staked(operators[..i], answers[..i])
      invariant totalStake as real == Sum(AsReals(stakes))
    {
      StakedSnoc(operators, answers, i);
      if answers[i].Some? && answers[i].value > 0 {
        TotalSnoc(stakes, OpStake(operators[i].id, answers[i].value));
        stakes := stakes + [OpStake(operators[i].id, answers[i].value)];
        totalStake := totalStake + answers[i].value;
      }
      i := i + 1;
    }
    assert operators[..i] == operators && answers[..i] == answers;
  }

  method ComputeHhi(stakes: seq<OpStake>, totalStake: int) returns (hhi: real)
    requires totalStake > 0
    ensures hhi == Hhi(AsReals(stakes), totalStake as real)
  {
    hhi := 0.0;
    var i := 0;
    while i < |stakes|
      invariant 0 <= i <= |stakes|
      invariant hhi == Hhi(AsReals(stakes[..i]), totalStake as real)
    {
      var pct := stakes[i].stake as real / totalStake as real;
      pct := pct * 100.0;
      HhiSnoc(AsReals(stakes[..i]), stakes[i].stake as real, totalStake as real);
      assert AsReals(stakes[..i + 1]) == AsReals(stakes[..i]) + [stakes[i].stake as real];
      hhi := hhi + pct * pct;
      i := i + 1;
    }
    assert stakes[..i] == stakes;
  }
}
