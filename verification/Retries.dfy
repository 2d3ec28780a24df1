/**
 * What the retry loop of a recoverability probe computes, told operator by operator and without
 * any schedule: the reference for the concurrent sweeps.
 */
module Retries {
  import opened Common
  import opened Operators
  import opened ProbeFanout
  import opened RealOrder

  const MIN_CHUNKS_FOR_RECOVERY: nat := 1024
  const MAX_PROBE_RETRIES: nat := 2
  const GC_CHUNKS_PER_OP_MAX: real := 4.0

  /** The answer that each operator gives when it is asked in a given round. */
  type ResponseTable = (OperatorInfo, nat) -> ChunkProbeResult

  /** Chunks of the first contributing answer an operator gives in the rounds before `k`. */
  function FirstGain(table: ResponseTable, o: OperatorInfo, k: nat): nat {
    if k == 0 then 0
    else if FirstGain(table, o, k - 1) > 0 then FirstGain(table, o, k - 1)
    else Gain(table(o, k - 1))
  }

  /** One answer per operator: the chunks collected in the rounds before `k`. */
  function ChunksBy(ops: seq<OperatorInfo>, table: ResponseTable, k: nat): nat {
    if |ops| == 0 then 0
    else ChunksBy(ops[..|ops| - 1], table, k) + FirstGain(table, ops[|ops| - 1], k)
  }

  /** How many operators contributed in the rounds before `k`. */
  function OksBy(ops: seq<OperatorInfo>, table: ResponseTable, k: nat): nat {
    if |ops| == 0 then 0
    else OksBy(ops[..|ops| - 1], table, k) + if FirstGain(table, ops[|ops| - 1], k) > 0 then 1 else 0
  }

  /** The operators that contributed nothing in the rounds before `k`. */
  function Quiet(ops: seq<OperatorInfo>, table: ResponseTable, k: nat): seq<OperatorInfo> {
    if |ops| == 0 then []
    else
      Quiet(ops[..|ops| - 1], table, k) + if FirstGain(table, ops[|ops| - 1], k) > 0 then [] else [ops[|ops| - 1]]
  }

  /** The answers an operator gives when it is asked until it contributes, before round `k`. */
  function AnswersBy(table: ResponseTable, o: OperatorInfo, k: nat): seq<ChunkProbeResult> {
    if k == 0 then []
    else AnswersBy(table, o, k - 1) + if FirstGain(table, o, k - 1) > 0 then [] else [table(o, k - 1)]
  }

  /** The loop leaves after round `k`. */
  predicate Leaves(ops: seq<OperatorInfo>, table: ResponseTable, k: nat)
    requires k >= 1
  {
    || ChunksBy(ops, table, k) >= MIN_CHUNKS_FOR_RECOVERY
    || k > MAX_PROBE_RETRIES
    || ChunksBy(ops, table, k) == ChunksBy(ops, table, k - 1)
    || OksBy(ops, table, k) == |ops|
  }

  /**
   * The number of rounds: the first after which 1024 chunks are there, or nothing was gained, or nobody
   * is left to ask; or else 3.
   */
  function Rounds(ops: seq<OperatorInfo>, table: ResponseTable): (k: nat)
    ensures 1 <= k <= 3
    ensures
      || ChunksBy(ops, table, k) >= 1024
      || ChunksBy(ops, table, k) == ChunksBy(ops, table, k - 1)
      || OksBy(ops, table, k) == |ops|
      || k == 3
    ensures forall j :: 1 <= j < k ==>
      && ChunksBy(ops, table, j) < 1024
      && ChunksBy(ops, table, j) != ChunksBy(ops, table, j - 1)
      && OksBy(ops, table, j) != |ops|
  {
    if Leaves(ops, table, 1) then 1 else if Leaves(ops, table, 2) then 2 else 3
  }

  /** Until the last round, the next round is the last one exactly when the loop leaves after it. */
  lemma NextRound(ops: seq<OperatorInfo>, table: ResponseTable, k: nat)
    requires k < Rounds(ops, table)
    ensures Leaves(ops, table, k + 1) <==> k + 1 == Rounds(ops, table)
  {
  }

  /** The operators of one sweep, each with its answer. */
  function Ask(ops: seq<OperatorInfo>, table: ResponseTable, round: nat): (tasks: seq<Task>)
    ensures |tasks| == |ops|
    ensures forall i :: 0 <= i < |ops| ==> tasks[i] == Task(ops[i], table(ops[i], round))
  {
    seq(|ops|, i requires 0 <= i < |ops| => Task(ops[i], table(ops[i], round)))
  }

  lemma TotalsSnoc(ops: seq<OperatorInfo>, o: OperatorInfo, table: ResponseTable, k: nat)
    ensures ChunksBy(ops + [o], table, k) == ChunksBy(ops, table, k) + FirstGain(table, o, k)
    ensures OksBy(ops + [o], table, k) == OksBy(ops, table, k) + if FirstGain(table, o, k) > 0 then 1 else 0
  {
    assert (ops + [o])[..|ops|] == ops;
  }

  lemma FirstGainNext(table: ResponseTable, o: OperatorInfo, k: nat)
    ensures FirstGain(table, o, k + 1) == if FirstGain(table, o, k) > 0 then FirstGain(table, o, k) else Gain(table(o, k))
  {
  }

  lemma QuietSnoc(ops: seq<OperatorInfo>, o: OperatorInfo, table: ResponseTable, k: nat)
    ensures Quiet(ops + [o], table, k) == if FirstGain(table, o, k) > 0 then Quiet(ops, table, k) else Quiet(ops, table, k) + [o]
  {
    assert (ops + [o])[..|ops|] == ops;
  }

  /** A sweep that asks one operator more. */
  lemma PassAskSnoc(ops: seq<OperatorInfo>, o: OperatorInfo, table: ResponseTable, round: nat)
    ensures Pass(Ask(ops + [o], table, round)) == Merge(Pass(Ask(ops, table, round)), Task(o, table(o, round)))
  {
    assert Ask(ops + [o], table, round) == Ask(ops, table, round) + [Task(o, table(o, round))];
    PassTasksSnoc(Ask(ops, table, round), Task(o, table(o, round)));
  }

  /** The reference gains in round `k` what a sequential sweep over the quiet operators gains. */
  ghost predicate RoundFits(ops: seq<OperatorInfo>, table: ResponseTable, k: nat) {
    var t := Pass(Ask(Quiet(ops, table, k), table, k));
    && ChunksBy(ops, table, k + 1) == ChunksBy(ops, table, k) + t.chunks
    && OksBy(ops, table, k + 1) == OksBy(ops, table, k) + t.okCount
    && Quiet(ops, table, k + 1) == t.failed
  }

  lemma RoundFitsSnoc(ops: seq<OperatorInfo>, o: OperatorInfo, table: ResponseTable, k: nat)
    requires RoundFits(ops, table, k)
    ensures RoundFits(ops + [o], table, k)
  {
    hide ChunksBy, OksBy, Quiet, Pass, Ask, FirstGain;
    FirstGainNext(table, o, k);
    TotalsSnoc(ops, o, table, k);
    TotalsSnoc(ops, o, table, k + 1);
    QuietSnoc(ops, o, table, k);
    QuietSnoc(ops, o, table, k + 1);
    PassAskSnoc(Quiet(ops, table, k), o, table, k);
  }

  lemma {:induction false} EveryRoundFits(ops: seq<OperatorInfo>, table: ResponseTable, k: nat)
    ensures RoundFits(ops, table, k)
  {
    if |ops| > 0 {
      hide RoundFits;
      EveryRoundFits(ops[..|ops| - 1], table, k);
      RoundFitsSnoc(ops[..|ops| - 1], ops[|ops| - 1], table, k);
      assert ops[..|ops| - 1] + [ops[|ops| - 1]] == ops;
    }
  }

  /** Asking one more round in list order: the reference and the sequential sweep agree. */
  lemma RoundAdds(ops: seq<OperatorInfo>, table: ResponseTable, k: nat)
    ensures var t := Pass(Ask(Quiet(ops, table, k), table, k));
      && ChunksBy(ops, table, k + 1) == ChunksBy(ops, table, k) + t.chunks
      && OksBy(ops, table, k + 1) == OksBy(ops, table, k) + t.okCount
      && Quiet(ops, table, k + 1) == t.failed
  {
    EveryRoundFits(ops, table, k);
  }

  lemma {:induction false} Totals(ops: seq<OperatorInfo>, table: ResponseTable, k: nat)
    ensures OksBy(ops, table, k) + |Quiet(ops, table, k)| == |ops|
    ensures OksBy(ops, table, k) <= ChunksBy(ops, table, k)
    ensures k == 0 ==> ChunksBy(ops, table, k) == 0 && OksBy(ops, table, k) == 0 && Quiet(ops, table, k) == ops
  {
    if |ops| > 0 { Totals(ops[..|ops| - 1], table, k); }
  }

  lemma {:induction false} QuietMembers(ops: seq<OperatorInfo>, table: ResponseTable, k: nat, o: OperatorInfo)
    ensures o in Quiet(ops, table, k) <==> o in ops && FirstGain(table, o, k) == 0
  {
    if |ops| > 0 { QuietMembers(ops[..|ops| - 1], table, k, o); }
  }

  lemma AskRemoveAt(ops: seq<OperatorInfo>, j: nat, table: ResponseTable, k: nat)
    requires j < |ops|
    ensures multiset(Ask(ops, table, k)) == multiset(Ask(Without(ops, j), table, k)) + multiset{Task(ops[j], table(ops[j], k))}
  {
    RemoveAt(Ask(ops, table, k), j);
    assert Without(Ask(ops, table, k), j) == Ask(Without(ops, j), table, k);
  }

  lemma {:induction false} AskPermutation(a: seq<OperatorInfo>, b: seq<OperatorInfo>, table: ResponseTable, k: nat)
    requires multiset(a) == multiset(b)
    ensures multiset(Ask(a, table, k)) == multiset(Ask(b, table, k))
    decreases |a|
  {
    hide Ask, Without;
    if a == [] {
      EmptyBag(a, b);
    } else {
      var j := StrikeHead(a, b);
      AskPermutation(Without(a, 0), Without(b, j), table, k);
      AskRemoveAt(a, 0, table, k);
      AskRemoveAt(b, j, table, k);
    }
  }

  /** A sweep over the pending operators in any order does what the reference does. */
  lemma SweepAdds(ops: seq<OperatorInfo>, pending: seq<OperatorInfo>, table: ResponseTable, k: nat, t: Tally)
    requires multiset(pending) == multiset(Quiet(ops, table, k))
    requires SameTally(t, Pass(Ask(pending, table, k)))
    ensures ChunksBy(ops, table, k + 1) == ChunksBy(ops, table, k) + t.chunks
    ensures OksBy(ops, table, k + 1) == OksBy(ops, table, k) + t.okCount
    ensures multiset(t.failed) == multiset(Quiet(ops, table, k + 1))
  {
    AskPermutation(pending, Quiet(ops, table, k), table, k);
    PassPermutation(Ask(pending, table, k), Ask(Quiet(ops, table, k), table, k));
    RoundAdds(ops, table, k);
  }

  /** Every round that does not end the loop leaves strictly fewer operators to ask. */
  lemma PendingShrinks(ops: seq<OperatorInfo>, table: ResponseTable, k: nat)
    requires 1 <= k < Rounds(ops, table)
    ensures 0 < |Quiet(ops, table, k)| < |Quiet(ops, table, k - 1)|
  {
    hide *;
    Totals(ops, table, k);
    Totals(ops, table, k - 1);
    RoundAdds(ops, table, k - 1);
    PassChunksNeedOk(Ask(Quiet(ops, table, k - 1), table, k - 1));
  }

  lemma {:induction false} PassChunksNeedOk(tasks: seq<Task>)
    ensures Pass(tasks).chunks > 0 <==> Pass(tasks).okCount > 0
  {
    if |tasks| > 0 { PassChunksNeedOk(tasks[..|tasks| - 1]); }
  }

  /** Everybody is asked in the first round; whoever never contributes is asked in every round. */
  lemma {:induction false} WhoIsAsked(table: ResponseTable, o: OperatorInfo, k: nat)
    ensures k >= 1 ==> |AnswersBy(table, o, k)| >= 1
    ensures FirstGain(table, o, k) == 0 ==> |AnswersBy(table, o, k)| == k
    ensures FirstGain(table, o, k) > 0 ==> 1 <= |AnswersBy(table, o, k)| <= k
    ensures forall j :: 0 <= j < |AnswersBy(table, o, k)| ==> AnswersBy(table, o, k)[j] == table(o, j)
    ensures forall j :: 0 <= j < |AnswersBy(table, o, k)| - 1 ==> !Contributes(table(o, j))
    ensures FirstGain(table, o, k) > 0 ==>
      FirstGain(table, o, k) == Gain(table(o, |AnswersBy(table, o, k)| - 1))
  {
    if k > 0 { WhoIsAsked(table, o, k - 1); }
  }

  /** The success flags of these answers. */
  function Flags(answers: seq<ChunkProbeResult>): seq<bool> {
    seq(|answers|, i requires 0 <= i < |answers| => answers[i].success)
  }

  lemma FlagsGrow(table: ResponseTable, o: OperatorInfo, k: nat)
    ensures Flags(AnswersBy(table, o, k + 1))
         == Flags(AnswersBy(table, o, k)) + if FirstGain(table, o, k) > 0 then [] else [table(o, k).success]
  {
  }

  // ---------------------------------------------------------------- verdict

  datatype Verdict = Recoverable | Inconclusive | AtRisk

  /** `round` is the rounding of a quotient to a double. */
  function Judge(totalChunks: nat, okCount: nat, round: real -> real): Verdict {
    if totalChunks >= MIN_CHUNKS_FOR_RECOVERY then Recoverable
    else
      var chunksPerOk := if okCount > 0 then round(totalChunks as real / okCount as real) else 0.0;
      if chunksPerOk >= GC_CHUNKS_PER_OP_MAX then Inconclusive else AtRisk
  }

  /** A monotone rounding that leaves 4 and 4 - 1/1024 alone, as rounding to doubles does. */
  ghost predicate Rounding(round: real -> real) {
    && (forall x: real, y: real :: x <= y ==> round(x) <= round(y))
    && round(4.0) == 4.0 && round(4095.0 / 1024.0) == 4095.0 / 1024.0
  }

  /** The quotient test on doubles is the exact integer test, for the operands that can reach it. */
  lemma JudgeIsExact(totalChunks: nat, okCount: nat, round: real -> real)
    requires Rounding(round)
    requires okCount <= totalChunks
    ensures Judge(totalChunks, okCount, round) == Recoverable <==> totalChunks >= 1024
    ensures Judge(totalChunks, okCount, round) == Inconclusive <==> okCount > 0 && 4 * okCount <= totalChunks < 1024
    ensures Judge(totalChunks, okCount, round) == Inconclusive ==> okCount <= 255
  {
    if totalChunks < 1024 && okCount > 0 {
      var q := totalChunks as real / okCount as real;
      assert q * okCount as real == totalChunks as real;
      if 4 * okCount <= totalChunks {
        QuotientAtLeast(q, okCount as real, totalChunks as real);
      } else {
        assert totalChunks as real <= 4.0 * okCount as real - 1.0;
        QuotientBelow(q, okCount as real, totalChunks as real);
      }
    }
  }

  lemma QuotientAtLeast(q: real, n: real, t: real)
    requires n > 0.0 && q * n == t && t >= 4.0 * n
    ensures q >= 4.0
  {
    Sign(q - 4.0, n);
    assert (q - 4.0) * n == q * n - 4.0 * n;
  }

  lemma QuotientBelow(q: real, n: real, t: real)
    requires 0.0 < n <= 1024.0 && q * n == t && t <= 4.0 * n - 1.0
    ensures q <= 4095.0 / 1024.0
  {
    var c := 4095.0 / 1024.0;
    Sign(q - c, n);
    assert (q - c) * n == q * n - 4.0 * n + n / 1024.0;
  }

  /**
   * A run that does not recover the blob ended because its last round brought no chunks, because
   * nobody was left to ask, or because three rounds were done.
   */
  lemma WhyItEnded(ops: seq<OperatorInfo>, table: ResponseTable)
    ensures var k := Rounds(ops, table);
      ChunksBy(ops, table, k) < 1024 ==>
        || ChunksBy(ops, table, k) == ChunksBy(ops, table, k - 1)
        || Quiet(ops, table, k) == []
        || k == 3
  {
    var k := Rounds(ops, table);
    Totals(ops, table, k);
  }

  /** After round `k` 1024 chunks are there, or nothing was gained, or nobody is left failing. */
  ghost predicate NothingMoreToDo(ops: seq<OperatorInfo>, table: ResponseTable, k: nat)
    requires k >= 1
  {
    || ChunksBy(ops, table, k) >= 1024
    || ChunksBy(ops, table, k) <= ChunksBy(ops, table, k - 1)
    || Quiet(ops, table, k) == []
  }

  lemma NothingMoreIff(ops: seq<OperatorInfo>, table: ResponseTable, k: nat)
    requires k >= 1
    ensures NothingMoreToDo(ops, table, k) <==>
      || ChunksBy(ops, table, k) >= 1024
      || ChunksBy(ops, table, k) == ChunksBy(ops, table, k - 1)
      || OksBy(ops, table, k) == |ops|
  {
    hide ChunksBy, OksBy, Quiet;
    Totals(ops, table, k);
    RoundAdds(ops, table, k - 1);
  }

  /** The run has exactly k rounds when k is the least number of rounds after which nothing more is to do, or 3. */
  lemma RoundsExactly(ops: seq<OperatorInfo>, table: ResponseTable, k: nat)
    ensures Rounds(ops, table) == k <==>
      1 <= k <= 3 && (k == 3 || NothingMoreToDo(ops, table, k)) && forall j :: 1 <= j < k ==> !NothingMoreToDo(ops, table, j)
    ensures k >= 1 && ChunksBy(ops, table, k) >= 1024 ==> Rounds(ops, table) <= k
  {
    hide ChunksBy, OksBy, Quiet, Rounds;
    NothingMoreIff(ops, table, 1);
    NothingMoreIff(ops, table, 2);
    hide NothingMoreToDo;
  }

  /** Round `j` brought nothing although somebody was still to ask. */
  ghost predicate EmptyRound(ops: seq<OperatorInfo>, table: ResponseTable, j: nat) {
    j >= 1 && OksBy(ops, table, j - 1) < |ops| && ChunksBy(ops, table, j) == ChunksBy(ops, table, j - 1)
  }

  lemma LastRoundHadPending(ops: seq<OperatorInfo>, table: ResponseTable)
    requires ops != []
    ensures OksBy(ops, table, Rounds(ops, table) - 1) < |ops|
  {
    hide *;
    var k := Rounds(ops, table);
    Totals(ops, table, k - 1);
    if k > 1 { assert OksBy(ops, table, k - 1) != |ops|; }
  }

  /**
   * The source's comment says that a blob is never called AT_RISK before a full round returned no
   * new chunks.  The code also stops when retries run out or when nobody is left to ask: the last
   * round of an unrecoverable run was empty exactly when one of the first three is empty with an
   * operator still to ask.
   */
  lemma EmptyLastRoundIff(ops: seq<OperatorInfo>, table: ResponseTable)
    requires ops != []
    requires ChunksBy(ops, table, Rounds(ops, table)) < 1024
    ensures EmptyRound(ops, table, Rounds(ops, table)) <==> exists j :: 1 <= j <= 3 && EmptyRound(ops, table, j)
  {
    var k := Rounds(ops, table);
    LastRoundHadPending(ops, table);
    forall j: nat | 1 <= j <= 3 && EmptyRound(ops, table, j) ensures EmptyRound(ops, table, k) {
      if j > k { LaterRoundEmpty(ops, table, k, j - 1 - k); }
    }
  }

  lemma LaterRoundEmpty(ops: seq<OperatorInfo>, table: ResponseTable, k: nat, d: nat)
    ensures OksBy(ops, table, k + d) < |ops| ==> OksBy(ops, table, k) != |ops|
  {
    if OksBy(ops, table, k) == |ops| { EverybodyStays(ops, table, k, d); }
  }

  /** Once everybody contributed, everybody has contributed later on. */
  lemma {:induction false} EverybodyStays(ops: seq<OperatorInfo>, table: ResponseTable, k: nat, d: nat)
    requires OksBy(ops, table, k) == |ops|
    ensures OksBy(ops, table, k + d) == |ops|
  {
    hide ChunksBy, OksBy, Quiet, Pass, Ask;
    Totals(ops, table, k);
    if d > 0 {
      EverybodyStays(ops, table, k, d - 1);
      RoundAdds(ops, table, k + d - 1);
      Totals(ops, table, k + d - 1);
      Totals(ops, table, k + d);
    }
  }

  /** Operators 1, 2 and 3 answer with one chunk in the first, second and third round, operator 4 never. */
  function StaggeredTable(): ResponseTable {
    (o: OperatorInfo, round: nat) => ChunkProbeResult(true, if o.id as int == round + 1 then 1 else 0)
  }

  const SOCKET := "h:1;2;3;4"

  const FOUR_OPERATORS: seq<OperatorInfo> :=
    [OperatorInfo(1, SOCKET), OperatorInfo(2, SOCKET), OperatorInfo(3, SOCKET), OperatorInfo(4, SOCKET)]

  /** Four operators that discovery can list, and an AT_RISK run over them none of whose rounds was empty. */
  lemma AtRiskWithoutEmptyRound(round: real -> real)
    requires Rounding(round)
    ensures DistinctIds(FOUR_OPERATORS) && forall o :: o in FOUR_OPERATORS ==> Listable(o)
    ensures var ops, t := FOUR_OPERATORS, StaggeredTable();
      var k := Rounds(ops, t);
      && Judge(ChunksBy(ops, t, k), OksBy(ops, t, k), round) == AtRisk
      && forall j :: 1 <= j <= k ==> ChunksBy(ops, t, j) > ChunksBy(ops, t, j - 1)
  {
    var t := StaggeredTable();
    assert SOCKET[0] == 'h';
    StaggeredTotals(0);
    StaggeredTotals(1);
    StaggeredTotals(2);
    StaggeredTotals(3);
    JudgeIsExact(3, 3, round);
  }

  lemma StaggeredTotals(k: nat)
    requires k <= 3
    ensures ChunksBy(FOUR_OPERATORS, StaggeredTable(), k) == k
    ensures OksBy(FOUR_OPERATORS, StaggeredTable(), k) == k
  {
    var t := StaggeredTable();
    var o1, o2, o3, o4 := OperatorInfo(1, SOCKET), OperatorInfo(2, SOCKET), OperatorInfo(3, SOCKET), OperatorInfo(4, SOCKET);
    TotalsSnoc([], o1, t, k);
    TotalsSnoc([o1], o2, t, k);
    TotalsSnoc([o1, o2], o3, t, k);
    TotalsSnoc([o1, o2, o3], o4, t, k);
    assert [] + [o1] == [o1] && [o1] + [o2] == [o1, o2] && [o1, o2] + [o3] == [o1, o2, o3];
    assert [o1, o2, o3] + [o4] == FOUR_OPERATORS;
    FirstGainStaggered(o1, k);
    FirstGainStaggered(o2, k);
    FirstGainStaggered(o3, k);
    FirstGainStaggered(o4, k);
  }

  lemma {:induction false} FirstGainStaggered(o: OperatorInfo, k: nat)
    ensures FirstGain(StaggeredTable(), o, k) == if 1 <= o.id as int <= k then 1 else 0
  {
    if k > 0 { FirstGainStaggered(o, k - 1); }
  }
}
