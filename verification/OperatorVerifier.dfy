/** The operator verifier worker: concurrent sweeps, the retry loop and the recorded verdict. */
module OperatorVerifier {
  import opened Common
  import opened Operators
  import opened FailStreaks
  import opened Discovery
  import opened Database
  import opened DeadOperators
  import opened ProbeFanout
  import opened Retries

  function ReportFor(task: Task): Report {
    Report(task.op.id, task.answer.success)
  }

  function RowFor(task: Task, blobKey: string, blobAgeHours: real): ProbeRow {
    ProbeRow(blobKey, blobAgeHours, Prefix(task.op.id), task.op.socket, task.answer.success, task.answer.chunksReturned)
  }

  /** The ReportResult calls made for these tasks, in this order. */
  function Reports(tasks: seq<Task>): (r: seq<Report>)
    ensures |r| == |tasks|
  {
    seq(|tasks|, i requires 0 <= i < |tasks| => ReportFor(tasks[i]))
  }

  /** The rows written for these tasks, in this order. */
  function Rows(tasks: seq<Task>, blobKey: string, blobAgeHours: real): (r: seq<ProbeRow>)
    ensures |r| == |tasks|
  {
    seq(|tasks|, i requires 0 <= i < |tasks| => RowFor(tasks[i], blobKey, blobAgeHours))
  }

  ghost predicate DistinctTasks(tasks: seq<Task>) {
    forall i, j :: 0 <= i < j < |tasks| ==> tasks[i].op.id != tasks[j].op.id
  }

  ghost predicate Asks(tasks: seq<Task>, id: OperatorId) {
    exists i :: 0 <= i < |tasks| && tasks[i].op.id == id
  }

  lemma ReportsSnoc(tasks: seq<Task>, task: Task)
    ensures Reports(tasks + [task]) == Reports(tasks) + [ReportFor(task)]
  {
  }

  lemma RowsSnoc(tasks: seq<Task>, task: Task, blobKey: string, blobAgeHours: real)
    ensures Rows(tasks + [task], blobKey, blobAgeHours) == Rows(tasks, blobKey, blobAgeHours) + [RowFor(task, blobKey, blobAgeHours)]
  {
  }

  // ---------------------------------------------------------------- one report and one row per operator

  /** The only report for this ID is that of its own answer. */
  ghost predicate OneReportOf(tasks: seq<Task>, id: OperatorId) {
    && (!Asks(tasks, id) ==> Outcomes(Reports(tasks), id) == [])
    && forall i :: 0 <= i < |tasks| && tasks[i].op.id == id ==> Outcomes(Reports(tasks), id) == [tasks[i].answer.success]
  }

  lemma AsksSnoc(tasks: seq<Task>, task: Task, id: OperatorId)
    ensures Asks(tasks + [task], id) <==> Asks(tasks, id) || task.op.id == id
  {
    var grown := tasks + [task];
    assert grown[|tasks|] == task;
    if Asks(tasks, id) {
      var i :| 0 <= i < |tasks| && tasks[i].op.id == id;
      assert grown[i].op.id == id;
    }
  }

  lemma OneReportSnoc(tasks: seq<Task>, task: Task, id: OperatorId)
    requires DistinctTasks(tasks + [task]) && OneReportOf(tasks, id)
    ensures OneReportOf(tasks + [task], id)
  {
    hide Outcomes, Reports;
    var grown := tasks + [task];
    assert forall i :: 0 <= i < |tasks| ==> grown[i] == tasks[i];
    ReportsSnoc(tasks, task);
    OutcomesSnoc(Reports(tasks), ReportFor(task), id);
    AsksSnoc(tasks, task, id);
    if task.op.id == id { assert forall i :: 0 <= i < |tasks| ==> tasks[i].op.id != grown[|tasks|].op.id; }
  }

  /** Among distinct operators each has exactly the report of its own answer. */
  lemma {:induction false} OneReport(tasks: seq<Task>, id: OperatorId)
    requires DistinctTasks(tasks)
    ensures OneReportOf(tasks, id)
  {
    if |tasks| > 0 {
      hide OneReportOf;
      var front, last := tasks[..|tasks| - 1], tasks[|tasks| - 1];
      OneReport(front, id);
      assert tasks == front + [last];
      OneReportSnoc(front, last, id);
    }
  }

  ghost predicate DistinctPrefixes(tasks: seq<Task>) {
    forall i, j :: 0 <= i < j < |tasks| ==> Prefix(tasks[i].op.id) != Prefix(tasks[j].op.id)
  }

  ghost predicate AsksPrefix(tasks: seq<Task>, p: OperatorPrefix) {
    exists i :: 0 <= i < |tasks| && Prefix(tasks[i].op.id) == p
  }

  ghost predicate OneRowOf(tasks: seq<Task>, rows: seq<ProbeRow>, p: OperatorPrefix) {
    && (!AsksPrefix(tasks, p) ==> RowOutcomes(rows, p) == [])
    && forall i :: 0 <= i < |tasks| && Prefix(tasks[i].op.id) == p ==> RowOutcomes(rows, p) == [tasks[i].answer.success]
  }

  lemma AsksPrefixSnoc(tasks: seq<Task>, task: Task, p: OperatorPrefix)
    ensures AsksPrefix(tasks + [task], p) <==> AsksPrefix(tasks, p) || Prefix(task.op.id) == p
  {
    hide Prefix;
    var grown := tasks + [task];
    assert grown[|tasks|] == task;
    if AsksPrefix(tasks, p) {
      var i :| 0 <= i < |tasks| && Prefix(tasks[i].op.id) == p;
      assert Prefix(grown[i].op.id) == p;
    }
  }

  lemma OneRowSnoc(tasks: seq<Task>, rows: seq<ProbeRow>, task: Task, row: ProbeRow, p: OperatorPrefix)
    requires DistinctPrefixes(tasks + [task]) && OneRowOf(tasks, rows, p)
    requires row.operatorId == Prefix(task.op.id) && row.success == task.answer.success
    ensures OneRowOf(tasks + [task], rows + [row], p)
  {
    hide RowOutcomes, Prefix;
    var grown := tasks + [task];
    assert forall i :: 0 <= i < |tasks| ==> grown[i] == tasks[i];
    RowOutcomesSnoc(rows, row, p);
    AsksPrefixSnoc(tasks, task, p);
    if row.operatorId == p { assert forall i :: 0 <= i < |tasks| ==> Prefix(tasks[i].op.id) != Prefix(grown[|tasks|].op.id); }
  }

  /** Among operators with distinct prefixes each has exactly the row of its own answer. */
  lemma {:induction false} OneRow(tasks: seq<Task>, blobKey: string, blobAgeHours: real, p: OperatorPrefix)
    requires DistinctPrefixes(tasks)
    ensures OneRowOf(tasks, Rows(tasks, blobKey, blobAgeHours), p)
  {
    if |tasks| > 0 {
      hide OneRowOf, Rows, Prefix;
      var front, last := tasks[..|tasks| - 1], tasks[|tasks| - 1];
      OneRow(front, blobKey, blobAgeHours, p);
      assert tasks == front + [last];
      RowsSnoc(front, last, blobKey, blobAgeHours);
      OneRowSnoc(front, Rows(front, blobKey, blobAgeHours), last, RowFor(last, blobKey, blobAgeHours), p);
    }
  }

  /** A permutation of distinct tasks asks the same operators. */
  lemma SameAsks(a: seq<Task>, b: seq<Task>, id: OperatorId)
    requires multiset(a) == multiset(b)
    ensures Asks(a, id) ==> exists i, j :: 0 <= i < |a| && 0 <= j < |b| && a[i].op.id == id && b[j] == a[i]
  {
    if Asks(a, id) {
      var i :| 0 <= i < |a| && a[i].op.id == id;
      assert a[i] in multiset(b);
      var j :| 0 <= j < |b| && b[j] == a[i];
    }
  }

  lemma DistinctTasksPermutation(a: seq<Task>, b: seq<Task>)
    requires DistinctTasks(a)
    requires multiset(a) == multiset(b)
    ensures DistinctTasks(b)
  {
    DistinctPermutation(a, b);
    forall i, j | 0 <= i < j < |b| ensures b[i].op.id != b[j].op.id {
      assert b[i] in multiset(a) && b[j] in multiset(a);
      var p :| 0 <= p < |a| && a[p] == b[i];
      var q :| 0 <= q < |a| && a[q] == b[j];
      assert p != q;
    }
  }

  lemma ReportedIdsGrow(a: seq<Report>, b: seq<Report>)
    ensures ReportedIds(a + b) == ReportedIds(a) + ReportedIds(b)
  {
    forall id ensures id in ReportedIds(a + b) <==> id in ReportedIds(a) + ReportedIds(b) {
      UnreportedIsEmpty(a, id);
      UnreportedIsEmpty(b, id);
      UnreportedIsEmpty(a + b, id);
      OutcomesConcat(a, b, id);
    }
  }

  /**
   * Reporting and recording the same distinct operators, each in its own order and without lost
   * inserts, keeps the table in step with the report history.
   */
  lemma SweepKeepsInStep(history: seq<Report>, rows: seq<ProbeRow>, reported: seq<Task>, written: seq<Task>,
                         blobKey: string, blobAgeHours: real)
    requires InStep(history, rows)
    requires DistinctTasks(reported) && multiset(reported) == multiset(written)
    ensures InStep(history + Reports(reported), rows + Rows(written, blobKey, blobAgeHours))
  {
    var newReports, newRows := Reports(reported), Rows(written, blobKey, blobAgeHours);
    var history', rows' := history + newReports, rows + newRows;
    ReportedIdsGrow(history, newReports);
    DistinctTasksPermutation(reported, written);
    forall k | 0 <= k < |written| ensures written[k].op.id in ReportedIds(newReports) {
      SameAsks(written, reported, written[k].op.id);
      assert Asks(written, written[k].op.id);
      var j :| 0 <= j < |reported| && reported[j].op.id == written[k].op.id;
      assert newReports[j].id == written[k].op.id;
    }
    forall k | 0 <= k < |rows'| ensures Known(history', rows'[k]) {
      if k < |rows| {
        assert Known(history, rows[k]);
        var id :| id in ReportedIds(history) && Prefix(id) == rows[k].operatorId;
        assert id in ReportedIds(history');
      } else {
        assert rows'[k].operatorId == Prefix(written[k - |rows|].op.id);
        assert written[k - |rows|].op.id in ReportedIds(history');
      }
    }
    if PrefixesDistinct(ReportedIds(history')) {
      forall id | id in ReportedIds(history') ensures RowOutcomes(rows', Prefix(id)) == Outcomes(history', id) {
        OldInStep(history, rows, ReportedIds(history'), id);
        NewInStep(reported, written, blobKey, blobAgeHours, ReportedIds(history'), id);
        OutcomesConcat(history, newReports, id);
        RowOutcomesConcat(rows, newRows, Prefix(id));
      }
    }
  }

  lemma OldInStep(history: seq<Report>, rows: seq<ProbeRow>, ids: set<OperatorId>, id: OperatorId)
    requires InStep(history, rows)
    requires PrefixesDistinct(ids) && ReportedIds(history) <= ids && id in ids
    ensures RowOutcomes(rows, Prefix(id)) == Outcomes(history, id)
  {
    if id !in ReportedIds(history) {
      UnreportedIsEmpty(history, id);
      forall k | 0 <= k < |rows| ensures rows[k].operatorId != Prefix(id) {
        assert Known(history, rows[k]);
        var other :| other in ReportedIds(history) && Prefix(other) == rows[k].operatorId;
        assert other in ids;
      }
      NoRowsNoOutcomes(rows, Prefix(id));
    }
  }

  lemma NewInStep(reported: seq<Task>, written: seq<Task>, blobKey: string, blobAgeHours: real,
                  ids: set<OperatorId>, id: OperatorId)
    requires DistinctTasks(reported) && DistinctTasks(written) && multiset(reported) == multiset(written)
    requires PrefixesDistinct(ids) && id in ids && forall k :: 0 <= k < |written| ==> written[k].op.id in ids
    ensures RowOutcomes(Rows(written, blobKey, blobAgeHours), Prefix(id)) == Outcomes(Reports(reported), id)
  {
    hide Outcomes, Reports, RowOutcomes, Rows, Prefix;
    assert DistinctPrefixes(written);
    OneReport(reported, id);
    OneRow(written, blobKey, blobAgeHours, Prefix(id));
    SameAsks(reported, written, id);
    if AsksPrefix(written, Prefix(id)) {
      var k :| 0 <= k < |written| && Prefix(written[k].op.id) == Prefix(id);
      assert written[k].op.id == id;
      assert Asks(written, id);
      SameAsks(written, reported, id);
    }
  }

  /** The success rows of one blob add up to the chunks of the sweep. */
  lemma {:induction false} PanelOfRows(tasks: seq<Task>, blobKey: string, blobAgeHours: real)
    ensures PanelChunks(Rows(tasks, blobKey, blobAgeHours), blobKey) == Pass(tasks).chunks
  {
    if |tasks| > 0 {
      var front, last := tasks[..|tasks| - 1], tasks[|tasks| - 1];
      PanelOfRows(front, blobKey, blobAgeHours);
      assert tasks == front + [last];
      RowsSnoc(front, last, blobKey, blobAgeHours);
      PanelChunksSnoc(Rows(front, blobKey, blobAgeHours), RowFor(last, blobKey, blobAgeHours), blobKey);
    }
  }

  // ---------------------------------------------------------------- one probe of a blob, over all its rounds

  /** Which operator_probes inserts take effect, by operator and round. */
  type InsertTable = (OperatorInfo, nat) -> bool

  /** Every insert made for these operators in the rounds before `k` took effect. */
  ghost predicate AllWritten(ops: seq<OperatorInfo>, table: ResponseTable, accepts: InsertTable, k: nat) {
    forall o, j: nat :: o in ops && j < |AnswersBy(table, o, k)| ==> accepts(o, j)
  }

  /**
   * Since `before`, each operator's history got the answers it gave in `k` rounds, until it
   * contributed; nobody else's history changed.
   */
  ghost predicate ReportsOf(ops: seq<OperatorInfo>, table: ResponseTable, k: nat, before: seq<Report>, now: seq<Report>) {
    && (forall o :: o in ops ==> Outcomes(now, o.id) == Outcomes(before, o.id) + Flags(AnswersBy(table, o, k)))
    && (forall id :: !Seen(ops, id) ==> Outcomes(now, id) == Outcomes(before, id))
  }

  /**
   * Since `before`, the success rows of this blob grew by exactly the chunks collected, if no insert
   * was lost; those of other blobs did not.
   */
  ghost predicate RowsOf(ops: seq<OperatorInfo>, table: ResponseTable, accepts: InsertTable, k: nat,
                         before: seq<ProbeRow>, now: seq<ProbeRow>, blobKey: string) {
    && (AllWritten(ops, table, accepts, k) ==>
          PanelChunks(now, blobKey) == PanelChunks(before, blobKey) + ChunksBy(ops, table, k))
    && (forall other :: other != blobKey ==> PanelChunks(now, other) == PanelChunks(before, other))
  }

  /** The row tells, column by column, an answer that the operator `o` gave. */
  ghost predicate RowOfAnswer(row: ProbeRow, o: OperatorInfo, answer: ChunkProbeResult, blobKey: string, blobAgeHours: real) {
    && row.blobKey == blobKey && row.blobAgeHours == blobAgeHours
    && row.operatorId == Prefix(o.id) && row.operatorSocket == o.socket
    && row.success == answer.success && row.chunksReturned == answer.chunksReturned
  }

  ghost predicate Told(ops: seq<OperatorInfo>, table: ResponseTable, k: nat, row: ProbeRow, blobKey: string, blobAgeHours: real) {
    exists o, j: nat :: o in ops && j < k && RowOfAnswer(row, o, table(o, j), blobKey, blobAgeHours)
  }

  /** Since `before` rows were only added, and each tells an answer of one of the operators in one of `k` rounds. */
  ghost predicate RowsTold(ops: seq<OperatorInfo>, table: ResponseTable, k: nat, before: seq<ProbeRow>, now: seq<ProbeRow>,
                           blobKey: string, blobAgeHours: real) {
    before <= now && forall m :: |before| <= m < |now| ==> Told(ops, table, k, now[m], blobKey, blobAgeHours)
  }

  lemma {:induction false} AcceptedMember(tasks: seq<Task>, accepts: seq<bool>, task: Task)
    requires |accepts| == |tasks|
    ensures task in Accepted(tasks, accepts) ==> task in tasks
  {
    if |tasks| > 0 {
      var n := |tasks| - 1;
      AcceptedMember(tasks[..n], accepts[..n], task);
    }
  }

  lemma RowsToldRound(ops: seq<OperatorInfo>, table: ResponseTable, k: nat, pending: seq<OperatorInfo>,
                      before: seq<ProbeRow>, now: seq<ProbeRow>, flags: seq<bool>, written: seq<Task>,
                      blobKey: string, blobAgeHours: real)
    requires multiset(pending) == multiset(Quiet(ops, table, k)) && |flags| == |pending|
    requires RowsTold(ops, table, k, before, now, blobKey, blobAgeHours)
    requires multiset(written) == multiset(Accepted(Ask(pending, table, k), flags))
    ensures RowsTold(ops, table, k + 1, before, now + Rows(written, blobKey, blobAgeHours), blobKey, blobAgeHours)
  {
    hide Quiet, Accepted, RowOfAnswer;
    var rows := now + Rows(written, blobKey, blobAgeHours);
    forall m | |before| <= m < |rows| ensures Told(ops, table, k + 1, rows[m], blobKey, blobAgeHours) {
      if m < |now| {
        assert Told(ops, table, k, now[m], blobKey, blobAgeHours);
        var o, j: nat :| o in ops && j < k && RowOfAnswer(now[m], o, table(o, j), blobKey, blobAgeHours);
      } else {
        var task := written[m - |now|];
        AcceptedMember(Ask(pending, table, k), flags, task);
        assert task in multiset(written);
        PendingMembers(ops, table, k, pending, task.op);
        RowForTells(task, blobKey, blobAgeHours);
        assert RowOfAnswer(rows[m], task.op, table(task.op, k), blobKey, blobAgeHours);
      }
    }
  }

  lemma RowForTells(task: Task, blobKey: string, blobAgeHours: real)
    ensures RowOfAnswer(RowFor(task, blobKey, blobAgeHours), task.op, task.answer, blobKey, blobAgeHours)
  {
  }

  /** What the loop knows after `k` rounds. */
  ghost predicate Collected(ops: seq<OperatorInfo>, table: ResponseTable, k: nat,
                            totalChunks: nat, okCount: nat, pending: seq<OperatorInfo>) {
    && totalChunks == ChunksBy(ops, table, k)
    && okCount == OksBy(ops, table, k)
    && multiset(pending) == multiset(Quiet(ops, table, k))
    && DistinctIds(ops) && DistinctIds(pending)
  }

  lemma {:induction false} QuietDistinct(ops: seq<OperatorInfo>, table: ResponseTable, k: nat)
    requires DistinctIds(ops)
    ensures DistinctIds(Quiet(ops, table, k))
  {
    if |ops| > 0 {
      var front, last := ops[..|ops| - 1], ops[|ops| - 1];
      QuietDistinct(front, table, k);
      forall i | 0 <= i < |Quiet(front, table, k)| ensures Quiet(front, table, k)[i].id != last.id {
        QuietMembers(front, table, k, Quiet(front, table, k)[i]);
      }
    }
  }

  lemma PendingMembers(ops: seq<OperatorInfo>, table: ResponseTable, k: nat, pending: seq<OperatorInfo>, o: OperatorInfo)
    requires multiset(pending) == multiset(Quiet(ops, table, k))
    ensures o in pending <==> o in ops && FirstGain(table, o, k) == 0
  {
    QuietMembers(ops, table, k, o);
    assert o in pending <==> o in multiset(pending);
    assert o in Quiet(ops, table, k) <==> o in multiset(Quiet(ops, table, k));
  }

  lemma CollectRound(ops: seq<OperatorInfo>, table: ResponseTable, k: nat,
                     totalChunks: nat, okCount: nat, pending: seq<OperatorInfo>, tally: Tally)
    requires Collected(ops, table, k, totalChunks, okCount, pending)
    requires SameTally(tally, Pass(Ask(pending, table, k)))
    ensures Collected(ops, table, k + 1, totalChunks + tally.chunks, okCount + tally.okCount, tally.failed)
  {
    SweepAdds(ops, pending, table, k, tally);
    QuietDistinct(ops, table, k + 1);
    DistinctIdsPermutation(Quiet(ops, table, k + 1), tally.failed);
  }

  /** A sweep reports an operator of the set exactly if it was still pending. */
  lemma ReportOne(ops: seq<OperatorInfo>, table: ResponseTable, k: nat, pending: seq<OperatorInfo>,
                  reported: seq<Task>, o: OperatorInfo)
    requires DistinctIds(ops) && multiset(pending) == multiset(Quiet(ops, table, k)) && o in ops
    requires DistinctTasks(reported) && multiset(reported) == multiset(Ask(pending, table, k))
    ensures Outcomes(Reports(reported), o.id) == if FirstGain(table, o, k) > 0 then [] else [table(o, k).success]
  {
    hide Outcomes, Reports, FirstGain, Quiet;
    OneReport(reported, o.id);
    PendingMembers(ops, table, k, pending, o);
    if o in pending {
      var i :| 0 <= i < |pending| && pending[i] == o;
      assert Ask(pending, table, k)[i] in multiset(reported);
      var j :| 0 <= j < |reported| && reported[j] == Ask(pending, table, k)[i];
      assert reported[j].op.id == o.id;
    } else {
      NotAsked(ops, table, k, pending, reported, o);
    }
  }

  /** A sweep reports nobody outside the set. */
  lemma ReportNone(ops: seq<OperatorInfo>, table: ResponseTable, k: nat, pending: seq<OperatorInfo>,
                   reported: seq<Task>, id: OperatorId)
    requires multiset(pending) == multiset(Quiet(ops, table, k)) && !Seen(ops, id)
    requires DistinctTasks(reported) && multiset(reported) == multiset(Ask(pending, table, k))
    ensures Outcomes(Reports(reported), id) == []
  {
    hide Outcomes, Reports, FirstGain, Quiet;
    OneReport(reported, id);
    SameAsks(reported, Ask(pending, table, k), id);
    forall i | 0 <= i < |pending| ensures pending[i].id != id {
      PendingMembers(ops, table, k, pending, pending[i]);
      var j :| 0 <= j < |ops| && ops[j] == pending[i];
      assert ops[j].id == pending[i].id;
    }
  }

  /** One more sweep extends every operator's history by exactly the answer it gave, if it was asked. */
  lemma ReportRound(ops: seq<OperatorInfo>, table: ResponseTable, k: nat, pending: seq<OperatorInfo>,
                    before: seq<Report>, now: seq<Report>, reported: seq<Task>)
    requires DistinctIds(ops) && multiset(pending) == multiset(Quiet(ops, table, k))
    requires ReportsOf(ops, table, k, before, now)
    requires DistinctTasks(reported) && multiset(reported) == multiset(Ask(pending, table, k))
    ensures ReportsOf(ops, table, k + 1, before, now + Reports(reported))
  {
    hide Outcomes, Reports, AnswersBy, Flags, Quiet, Ask;
    forall o | o in ops
      ensures Outcomes(now + Reports(reported), o.id) == Outcomes(before, o.id) + Flags(AnswersBy(table, o, k + 1))
    {
      OutcomesConcat(now, Reports(reported), o.id);
      ReportOne(ops, table, k, pending, reported, o);
      FlagsGrow(table, o, k);
    }
    forall id | !Seen(ops, id) ensures Outcomes(now + Reports(reported), id) == Outcomes(before, id) {
      OutcomesConcat(now, Reports(reported), id);
      ReportNone(ops, table, k, pending, reported, id);
    }
  }

  lemma NotAsked(ops: seq<OperatorInfo>, table: ResponseTable, k: nat, pending: seq<OperatorInfo>,
                 reported: seq<Task>, o: OperatorInfo)
    requires DistinctIds(ops) && multiset(pending) == multiset(Quiet(ops, table, k))
    requires multiset(reported) == multiset(Ask(pending, table, k))
    requires o in ops && o !in pending
    ensures !Asks(reported, o.id)
  {
    SameAsks(reported, Ask(pending, table, k), o.id);
    forall i | 0 <= i < |pending| ensures pending[i].id != o.id {
      PendingMembers(ops, table, k, pending, pending[i]);
      assert pending[i] in ops && pending[i] != o;
    }
  }

  lemma {:induction false} OtherBlobsUnchanged(tasks: seq<Task>, blobKey: string, blobAgeHours: real, other: string)
    requires other != blobKey
    ensures PanelChunks(Rows(tasks, blobKey, blobAgeHours), other) == 0
  {
    if |tasks| > 0 {
      var front, last := tasks[..|tasks| - 1], tasks[|tasks| - 1];
      OtherBlobsUnchanged(front, blobKey, blobAgeHours, other);
      assert tasks == front + [last];
      RowsSnoc(front, last, blobKey, blobAgeHours);
      PanelChunksSnoc(Rows(front, blobKey, blobAgeHours), RowFor(last, blobKey, blobAgeHours), other);
    }
  }

  lemma RowRound(ops: seq<OperatorInfo>, table: ResponseTable, accepts: InsertTable, k: nat, pending: seq<OperatorInfo>,
                 before: seq<ProbeRow>, now: seq<ProbeRow>, flags: seq<bool>, written: seq<Task>,
                 blobKey: string, blobAgeHours: real)
    requires multiset(pending) == multiset(Quiet(ops, table, k))
    requires RowsOf(ops, table, accepts, k, before, now, blobKey)
    requires |flags| == |pending| && forall i :: 0 <= i < |pending| ==> flags[i] == accepts(pending[i], k)
    requires multiset(written) == multiset(Accepted(Ask(pending, table, k), flags))
    ensures RowsOf(ops, table, accepts, k + 1, before, now + Rows(written, blobKey, blobAgeHours), blobKey)
    ensures AllWritten(ops, table, accepts, k + 1) <==> AllWritten(ops, table, accepts, k) && false !in flags
  {
    var tasks, newRows := Ask(pending, table, k), Rows(written, blobKey, blobAgeHours);
    WrittenRound(ops, table, accepts, k, pending, flags);
    if AllWritten(ops, table, accepts, k + 1) {
      AllAccepted(tasks, flags);
      PassPermutation(written, tasks);
      PanelOfRows(written, blobKey, blobAgeHours);
      PanelChunksConcat(now, newRows, blobKey);
      SweepAdds(ops, pending, table, k, Pass(tasks));
    }
    forall other | other != blobKey ensures PanelChunks(now + newRows, other) == PanelChunks(before, other) {
      PanelChunksConcat(now, newRows, other);
      OtherBlobsUnchanged(written, blobKey, blobAgeHours, other);
    }
  }

  lemma OneMoreAnswer(table: ResponseTable, o: OperatorInfo, k: nat)
    ensures FirstGain(table, o, k) == 0 ==> |AnswersBy(table, o, k)| == k
    ensures |AnswersBy(table, o, k + 1)| == |AnswersBy(table, o, k)| + if FirstGain(table, o, k) > 0 then 0 else 1
  {
    WhoIsAsked(table, o, k);
  }

  lemma WrittenRound(ops: seq<OperatorInfo>, table: ResponseTable, accepts: InsertTable, k: nat,
                     pending: seq<OperatorInfo>, flags: seq<bool>)
    requires multiset(pending) == multiset(Quiet(ops, table, k))
    requires |flags| == |pending| && forall i :: 0 <= i < |pending| ==> flags[i] == accepts(pending[i], k)
    ensures AllWritten(ops, table, accepts, k + 1) <==> AllWritten(ops, table, accepts, k) && false !in flags
  {
    hide Quiet, AnswersBy, FirstGain;
    forall o | o in ops
      ensures FirstGain(table, o, k) == 0 ==> o in pending && |AnswersBy(table, o, k)| == k
      ensures |AnswersBy(table, o, k + 1)| == |AnswersBy(table, o, k)| + if FirstGain(table, o, k) > 0 then 0 else 1
    {
      PendingMembers(ops, table, k, pending, o);
      OneMoreAnswer(table, o, k);
    }
    forall i | 0 <= i < |pending| ensures pending[i] in ops && FirstGain(table, pending[i], k) == 0 {
      PendingMembers(ops, table, k, pending, pending[i]);
    }
    if AllWritten(ops, table, accepts, k + 1) {
      forall i | 0 <= i < |pending| ensures flags[i] {
        assert k < |AnswersBy(table, pending[i], k + 1)|;
      }
    }
    if AllWritten(ops, table, accepts, k) && false !in flags {
      forall o, j: nat | o in ops && j < |AnswersBy(table, o, k + 1)| ensures accepts(o, j) {
        if j >= |AnswersBy(table, o, k)| {
          var i :| 0 <= i < |pending| && pending[i] == o;
          assert flags[i] in flags;
        }
      }
    }
  }

  /** One round, all in all. */
  lemma RoundFacts(ops: seq<OperatorInfo>, table: ResponseTable, accepts: InsertTable, k: nat, next: nat,
                   totalChunks: nat, okCount: nat, pending: seq<OperatorInfo>, tally: Tally,
                   reported: seq<Task>, written: seq<Task>, flags: seq<bool>,
                   start: Start, history: seq<Report>, rows: seq<ProbeRow>, blobKey: string, blobAgeHours: real)
    requires next == k + 1 && Collected(ops, table, k, totalChunks, okCount, pending)
    requires ReportsOf(ops, table, k, start.history, history) && RowsOf(ops, table, accepts, k, start.rows, rows, blobKey)
    requires RowsTold(ops, table, k, start.rows, rows, blobKey, blobAgeHours)
    requires |flags| == |pending| && forall i :: 0 <= i < |pending| ==> flags[i] == accepts(pending[i], k)
    requires SameTally(tally, Pass(Ask(pending, table, k)))
    requires multiset(reported) == multiset(Ask(pending, table, k))
    requires multiset(written) == multiset(Accepted(Ask(pending, table, k), flags))
    ensures Collected(ops, table, next, totalChunks + tally.chunks, okCount + tally.okCount, tally.failed)
    ensures ReportsOf(ops, table, next, start.history, history + Reports(reported))
    ensures RowsOf(ops, table, accepts, next, start.rows, rows + Rows(written, blobKey, blobAgeHours), blobKey)
    ensures RowsTold(ops, table, next, start.rows, rows + Rows(written, blobKey, blobAgeHours), blobKey, blobAgeHours)
    ensures AllWritten(ops, table, accepts, next) <==> AllWritten(ops, table, accepts, k) && false !in flags
  {
    CollectRound(ops, table, k, totalChunks, okCount, pending, tally);
    DistinctTasksPermutation(Ask(pending, table, k), reported);
    ReportRound(ops, table, k, pending, start.history, history, reported);
    RowsToldRound(ops, table, k, pending, start.rows, rows, flags, written, blobKey, blobAgeHours);
    RowRound(ops, table, accepts, k, pending, start.rows, rows, flags, written, blobKey, blobAgeHours);
  }

  lemma NothingYet(ops: seq<OperatorInfo>, table: ResponseTable, accepts: InsertTable, start: Start, blobKey: string)
    ensures ReportsOf(ops, table, 0, start.history, start.history)
    ensures RowsOf(ops, table, accepts, 0, start.rows, start.rows, blobKey) && AllWritten(ops, table, accepts, 0)
  {
    Totals(ops, table, 0);
  }

  lemma NothingCollected(ops: seq<OperatorInfo>, table: ResponseTable)
    requires DistinctIds(ops)
    ensures Collected(ops, table, 0, 0, 0, ops)
  {
    Totals(ops, table, 0);
  }

  lemma CollectedTotals(ops: seq<OperatorInfo>, table: ResponseTable, k: nat,
                        totalChunks: nat, okCount: nat, pending: seq<OperatorInfo>)
    requires Collected(ops, table, k, totalChunks, okCount, pending)
    ensures totalChunks == ChunksBy(ops, table, k) && okCount == OksBy(ops, table, k)
  {
  }

  /** The tests at the end of a round: they single out the last round of the reference. */
  method LoopTests(ghost ops: seq<OperatorInfo>, ghost table: ResponseTable, rounds: nat, chunks: nat, totalChunks: nat,
                   ghost okCount: nat, failed: seq<OperatorInfo>)
    returns (done: bool)
    requires 1 <= rounds <= Rounds(ops, table) && Collected(ops, table, rounds, totalChunks, okCount, failed)
    requires totalChunks == ChunksBy(ops, table, rounds - 1) + chunks
    ensures done <==> rounds == Rounds(ops, table)
  {
    NextRound(ops, table, rounds - 1);
    Totals(ops, table, rounds);
    assert |multiset(failed)| == |failed|;
    assert |multiset(Quiet(ops, table, rounds))| == |Quiet(ops, table, rounds)|;
    if totalChunks >= MIN_CHUNKS_FOR_RECOVERY { return true; }
    if rounds > MAX_PROBE_RETRIES || chunks == 0 || |failed| == 0 { return true; }
    return false;
  }

  datatype Outcome = Outcome(rounds: nat, totalChunks: nat, okCount: nat, verdict: Verdict)

  /** The outcome, told by the operators and their answers alone. */
  function Expected(ops: seq<OperatorInfo>, table: ResponseTable, round: real -> real): Outcome {
    var k := Rounds(ops, table);
    Outcome(k, ChunksBy(ops, table, k), OksBy(ops, table, k), Judge(ChunksBy(ops, table, k), OksBy(ops, table, k), round))
  }

  /**
   * The three outcomes partition all runs by exact integer tests, and a run that is not recoverable
   * ended because its last round was empty, nobody was left to ask, or three rounds were done.
   */
  lemma OutcomePartition(ops: seq<OperatorInfo>, table: ResponseTable, round: real -> real)
    requires Rounding(round)
    ensures var o := Expected(ops, table, round);
      && (o.verdict == Recoverable <==> o.totalChunks >= 1024)
      && (o.verdict == Inconclusive <==> o.okCount > 0 && 4 * o.okCount <= o.totalChunks < 1024)
      && (o.verdict == AtRisk <==> o.totalChunks < 1024 && (o.okCount == 0 || o.totalChunks < 4 * o.okCount))
      && (o.verdict == Inconclusive ==> o.okCount <= 255)
      && 1 <= o.rounds <= 3
      && (o.verdict != Recoverable ==>
            || ChunksBy(ops, table, o.rounds) == ChunksBy(ops, table, o.rounds - 1)
            || Quiet(ops, table, o.rounds) == []
            || o.rounds == 3)
  {
    hide ChunksBy, OksBy, Quiet, Judge, Rounding;
    var k := Rounds(ops, table);
    Totals(ops, table, k);
    JudgeIsExact(ChunksBy(ops, table, k), OksBy(ops, table, k), round);
    WhyItEnded(ops, table);
  }

  lemma InconclusiveAt(ops: seq<OperatorInfo>, table: ResponseTable, k: nat, round: real -> real)
    ensures var totalChunks, okCount := ChunksBy(ops, table, k), OksBy(ops, table, k);
      Rounding(round) ==>
        (Judge(totalChunks, okCount, round) == Inconclusive <==> okCount > 0 && 4 * okCount <= totalChunks < 1024)
  {
    Totals(ops, table, k);
    if Rounding(round) { JudgeIsExact(ChunksBy(ops, table, k), OksBy(ops, table, k), round); }
  }

  /** Probes of the same operators agree on everything but the order, whatever order discovery gave. */
  lemma OutcomeIgnoresOrder(a: seq<OperatorInfo>, b: seq<OperatorInfo>, table: ResponseTable, round: real -> real)
    requires multiset(a) == multiset(b)
    ensures Expected(a, table, round) == Expected(b, table, round)
  {
    forall k: nat ensures ChunksBy(a, table, k) == ChunksBy(b, table, k) && OksBy(a, table, k) == OksBy(b, table, k) {
      TotalsIgnoreOrder(a, b, table, k);
    }
    assert |multiset(a)| == |a| && |multiset(b)| == |b|;
    assert forall k: nat :: k >= 1 ==> (Leaves(a, table, k) <==> Leaves(b, table, k));
  }

  ghost predicate SameTotals(a: seq<OperatorInfo>, b: seq<OperatorInfo>, table: ResponseTable, k: nat) {
    && ChunksBy(a, table, k) == ChunksBy(b, table, k)
    && OksBy(a, table, k) == OksBy(b, table, k)
    && multiset(Quiet(a, table, k)) == multiset(Quiet(b, table, k))
  }

  lemma TotalsStep(a: seq<OperatorInfo>, b: seq<OperatorInfo>, table: ResponseTable, k: nat)
    requires SameTotals(a, b, table, k)
    ensures SameTotals(a, b, table, k + 1)
  {
    var quiet := Quiet(a, table, k);
    RoundAdds(a, table, k);
    SweepAdds(b, quiet, table, k, Pass(Ask(quiet, table, k)));
  }

  lemma {:induction false} TotalsIgnoreOrder(a: seq<OperatorInfo>, b: seq<OperatorInfo>, table: ResponseTable, k: nat)
    requires multiset(a) == multiset(b)
    ensures SameTotals(a, b, table, k)
    decreases k
  {
    if k == 0 {
      Totals(a, table, 0);
      Totals(b, table, 0);
    } else {
      TotalsIgnoreOrder(a, b, table, k - 1);
      TotalsStep(a, b, table, k - 1);
    }
  }

  /** The tables and counters before a probe of a blob. */
  datatype Start = Start(history: seq<Report>, rows: seq<ProbeRow>, insertLost: bool)

  /** The operators whose row reaches the table, in list order. */
  function Accepted(tasks: seq<Task>, accepts: seq<bool>): seq<Task>
    requires |accepts| == |tasks|
  {
    if |tasks| == 0 then []
    else
      var n := |tasks| - 1;
      Accepted(tasks[..n], accepts[..n]) + if accepts[n] then [tasks[n]] else []
  }

  lemma {:induction false} AllAccepted(tasks: seq<Task>, accepts: seq<bool>)
    requires |accepts| == |tasks| && false !in accepts
    ensures Accepted(tasks, accepts) == tasks
  {
    if |tasks| > 0 {
      var n := |tasks| - 1;
      AllAccepted(tasks[..n], accepts[..n]);
      assert accepts[n] in accepts;
      assert tasks == tasks[..n] + [tasks[n]];
    }
  }

  /** A sweep's inserts took effect as decided per operator. */
  ghost predicate AcceptedBy(s: State, accepts: seq<bool>) {
    forall i: nat :: i in s.written <==> i in s.recorded && i < |accepts| && accepts[i]
  }

  lemma AcceptedStep(task: Task, s: State, t: State, i: nat, accepts: seq<bool>)
    requires i < |accepts| && StepEffects(task, s, t, i, accepts[i]) && AcceptedBy(s, accepts)
    ensures AcceptedBy(t, accepts)
  {
  }

  lemma StepFacts(tasks: seq<Task>, s: State, a: Action, accepts: seq<bool>)
    requires Inv(tasks, s) && Enabled(tasks, s, a) && |accepts| == |tasks| && AcceptedBy(s, accepts)
    requires a.Advance? ==> a.ok == accepts[a.i]
    ensures var t := Apply(tasks, s, a);
      && Inv(tasks, t) && AcceptedBy(t, accepts)
      && 0 <= Remaining(tasks, t) < Remaining(tasks, s)
      && if a.Advance? then StepEffects(tasks[a.i], s, t, a.i, accepts[a.i])
         else t.reported == s.reported && t.written == s.written
  {
    StepInv(tasks, s, a);
    RemainingBounds(tasks, Apply(tasks, s, a));
    StepUsesOne(tasks, s, a);
    if a.Advance? {
      GoroutineEffects(tasks[a.i], s, a.i, a.ok);
      AcceptedStep(tasks[a.i], s, Apply(tasks, s, a), a.i, accepts);
    }
  }

  lemma {:induction false} AcceptedIsWritten(tasks: seq<Task>, accepts: seq<bool>, written: seq<nat>)
    requires |accepts| == |tasks|
    requires Distinct(written) && Within(written, |tasks|)
    requires forall i: nat :: i in written <==> i < |tasks| && accepts[i]
    ensures multiset(Pick(tasks, written)) == multiset(Accepted(tasks, accepts))
  {
    var order := AcceptedPositions(accepts);
    AcceptedPositionsMeaning(tasks, accepts);
    DistinctBag(order);
    DistinctBag(written);
    assert multiset(order) == multiset(written);
    PickPermutation(tasks, written, order);
  }

  function AcceptedPositions(accepts: seq<bool>): seq<nat> {
    if |accepts| == 0 then []
    else
      var n := |accepts| - 1;
      AcceptedPositions(accepts[..n]) + if accepts[n] then [n] else []
  }

  /** These positions are those of the accepted inserts, each once. */
  ghost predicate Accepts(order: seq<nat>, accepts: seq<bool>) {
    && Distinct(order)
    && forall i: nat :: i in order <==> i < |accepts| && accepts[i]
  }

  lemma AcceptsSnoc(order: seq<nat>, accepts: seq<bool>, ok: bool)
    requires Accepts(order, accepts)
    ensures Accepts(if ok then order + [|accepts|] else order, accepts + [ok])
  {
    var grown := accepts + [ok];
    assert grown[|accepts|] == ok && forall i :: 0 <= i < |accepts| ==> grown[i] == accepts[i];
    assert |accepts| !in order;
  }

  lemma {:induction false} AcceptedPositionsMeaning(tasks: seq<Task>, accepts: seq<bool>)
    requires |accepts| == |tasks|
    ensures Accepts(AcceptedPositions(accepts), accepts) && Within(AcceptedPositions(accepts), |tasks|)
    ensures Pick(tasks, AcceptedPositions(accepts)) == Accepted(tasks, accepts)
  {
    if |tasks| > 0 {
      hide Accepts;
      var n := |tasks| - 1;
      var front := AcceptedPositions(accepts[..n]);
      AcceptedPositionsMeaning(tasks[..n], accepts[..n]);
      assert accepts[..n] + [accepts[n]] == accepts;
      AcceptsSnoc(front, accepts[..n], accepts[n]);
      assert Pick(tasks, front) == Pick(tasks[..n], front);
      if accepts[n] { PickAppend(tasks, front, n); }
    }
  }

  class OperatorVerifier {
    const db: Database
    const discovery: Discovery

    /** Whether some operator_probes insert has failed since the tables were empty. */
    ghost var insertLost: bool

    ghost predicate Valid()
      reads this, db`operatorProbes, discovery, discovery.cache
    {
      && discovery.Valid()
      && (!insertLost ==> InStep(discovery.history, db.operatorProbes))
    }

    constructor (db: Database, discovery: Discovery)
      requires discovery.Valid() && discovery.history == [] && db.operatorProbes == []
      ensures Valid() && this.db == db && this.discovery == discovery && !insertLost
    {
      this.db, this.discovery := db, discovery;
      insertLost := false;
    }

    /**
     * Between probes of blobs, while no probe row was lost and ID prefixes identify operators: the
     * operators panel counts exactly the blacklisted operators, and the threat panel counts no others.
     */
    lemma PanelsShowBlacklist()
      requires Valid() && !insertLost
      requires PrefixesDistinct(ReportedIds(discovery.history))
      ensures OperatorsPanel(db.operatorProbes) == set id | id in discovery.Blacklisted() :: Prefix(id)
      ensures |OperatorsPanel(db.operatorProbes)| == |discovery.Blacklisted()|
      ensures ThreatPanel(db.operatorProbes) <= OperatorsPanel(db.operatorProbes)
    {
      PanelIsBlacklist(discovery.history, db.operatorProbes, discovery.Blacklisted());
    }

    /**
     * One sweep: the spawner and its goroutines under an arbitrary scheduler.  `accepts[i]` decides
     * whether the probe row of the i-th operator reaches the table.  The lists `reported` and
     * `written` tell in which order the reports and the rows were made.
     */
    method ProbeSet(tasks: seq<Task>, blobKey: string, blobAgeHours: real, accepts: seq<bool>)
      returns (tally: Tally, ghost reported: seq<Task>, ghost written: seq<Task>)
      requires Valid()
      requires DistinctTasks(tasks) && |accepts| == |tasks|
      modifies this`insertLost, db`operatorProbes, discovery`failCount, discovery`history
      ensures Valid()
      ensures SameTally(tally, Pass(tasks))
      ensures multiset(reported) == multiset(tasks)
      ensures multiset(written) == multiset(Accepted(tasks, accepts))
      ensures discovery.history == old(discovery.history) + Reports(reported)
      ensures db.operatorProbes == old(db.operatorProbes) + Rows(written, blobKey, blobAgeHours)
      ensures insertLost == (old(insertLost) || false in accepts)
    {
      var s := RunSweep(tasks, blobKey, blobAgeHours, accepts);
      ReturnedCompletes(tasks, s);
      VisitsIsPermutation(tasks, s.reported);
      tally, reported, written := s.tally, Pick(tasks, s.reported), Pick(tasks, s.written);
      AcceptedIsWritten(tasks, accepts, s.written);
      DistinctTasksPermutation(tasks, reported);
      if !insertLost && false !in accepts {
        AllAccepted(tasks, accepts);
        SweepKeepsInStep(old(discovery.history), old(db.operatorProbes), reported, written, blobKey, blobAgeHours);
      }
      insertLost := insertLost || false in accepts;
    }

    /** What a sweep in state `s` has done to the counters and to the table since `history` and `rows`. */
    ghost predicate Sweeping(tasks: seq<Task>, s: State, blobKey: string, blobAgeHours: real,
                             history: seq<Report>, rows: seq<ProbeRow>)
      reads db`operatorProbes, discovery, discovery.cache
    {
      && discovery.Valid()
      && Within(s.reported, |tasks|) && discovery.history == history + Reports(Pick(tasks, s.reported))
      && Within(s.written, |tasks|) && db.operatorProbes == rows + Rows(Pick(tasks, s.written), blobKey, blobAgeHours)
    }

    method RunSweep(tasks: seq<Task>, blobKey: string, blobAgeHours: real, accepts: seq<bool>) returns (s: State)
      requires discovery.Valid() && |accepts| == |tasks|
      modifies db`operatorProbes, discovery`failCount, discovery`history
      ensures Inv(tasks, s) && s.spawner == Returned && AcceptedBy(s, accepts)
      ensures Sweeping(tasks, s, blobKey, blobAgeHours, old(discovery.history), old(db.operatorProbes))
    {
      s := Init(|tasks|);
      InitInv(tasks);
      while s.spawner != Returned
        invariant Inv(tasks, s) && AcceptedBy(s, accepts)
        invariant Sweeping(tasks, s, blobKey, blobAgeHours, old(discovery.history), old(db.operatorProbes))
        decreases Remaining(tasks, s)
      {
        s := StepOnce(tasks, s, blobKey, blobAgeHours, accepts, old(discovery.history), old(db.operatorProbes));
      }
    }

    /** Some enabled step, chosen by the scheduler, with its effect on the counters and on the table. */
    method StepOnce(tasks: seq<Task>, s: State, blobKey: string, blobAgeHours: real, accepts: seq<bool>,
                    ghost history: seq<Report>, ghost rows: seq<ProbeRow>) returns (t: State)
      requires Inv(tasks, s) && s.spawner != Returned && |accepts| == |tasks| && AcceptedBy(s, accepts)
      requires Sweeping(tasks, s, blobKey, blobAgeHours, history, rows)
      modifies db`operatorProbes, discovery`failCount, discovery`history
      ensures Inv(tasks, t) && AcceptedBy(t, accepts)
      ensures Sweeping(tasks, t, blobKey, blobAgeHours, history, rows)
      ensures 0 <= Remaining(tasks, t) < Remaining(tasks, s)
    {
      hide Inv, Remaining, AcceptedBy, Reports, Rows, Pick;
      var i;
      t, i := Schedule(tasks, s, accepts);
      if i.Some? && s.phases[i.value] == Answered {
        MakeReport(tasks, s, t, i.value, history);
      } else if i.Some? && s.phases[i.value] == Reported {
        MakeRow(tasks, s, t, i.value, accepts[i.value], blobKey, blobAgeHours, rows);
      }
    }

    static method Schedule(tasks: seq<Task>, s: State, accepts: seq<bool>) returns (t: State, i: Option<nat>)
      requires Inv(tasks, s) && s.spawner != Returned && |accepts| == |tasks| && AcceptedBy(s, accepts)
      ensures Inv(tasks, t) && AcceptedBy(t, accepts)
      ensures 0 <= Remaining(tasks, t) < Remaining(tasks, s)
      ensures i == None ==> t.reported == s.reported && t.written == s.written
      ensures i.Some? ==> i.value < |tasks| && StepEffects(tasks[i.value], s, t, i.value, accepts[i.value])
    {
      hide Inv, Remaining, AcceptedBy;
      ghost var possible := SomeStepEnabled(tasks, s);
      var chosen :| Enabled(tasks, s, chosen);
      assert Enabled(tasks, s, chosen);
      var a := if chosen.Advance? then Advance(chosen.i, accepts[chosen.i]) else chosen;
      t := Apply(tasks, s, a);
      i := if a.Advance? then Some(a.i) else None;
      StepFacts(tasks, s, a, accepts);
    }

    method MakeReport(tasks: seq<Task>, s: State, t: State, i: nat, ghost history: seq<Report>)
      requires discovery.Valid() && i < |tasks| && Within(s.reported, |tasks|) && t.reported == s.reported + [i]
      requires discovery.history == history + Reports(Pick(tasks, s.reported))
      modifies discovery`failCount, discovery`history
      ensures discovery.Valid() && Within(t.reported, |tasks|)
      ensures discovery.history == history + Reports(Pick(tasks, t.reported))
    {
      PickAppend(tasks, s.reported, i);
      ReportsSnoc(Pick(tasks, s.reported), tasks[i]);
      discovery.ReportResult(tasks[i].op.id, tasks[i].answer.success);
    }

    method MakeRow(tasks: seq<Task>, s: State, t: State, i: nat, ok: bool, blobKey: string, blobAgeHours: real,
                   ghost rows: seq<ProbeRow>)
      requires i < |tasks| && Within(s.written, |tasks|) && t.written == if ok then s.written + [i] else s.written
      requires db.operatorProbes == rows + Rows(Pick(tasks, s.written), blobKey, blobAgeHours)
      modifies db`operatorProbes
      ensures Within(t.written, |tasks|)
      ensures db.operatorProbes == rows + Rows(Pick(tasks, t.written), blobKey, blobAgeHours)
    {
      PickAppend(tasks, s.written, i);
      RowsSnoc(Pick(tasks, s.written), tasks[i], blobKey, blobAgeHours);
      var op, r := tasks[i].op, tasks[i].answer;
      db.InsertOperatorProbe(
        ProbeRow(blobKey, blobAgeHours, Prefix(op.id), op.socket, r.success, r.chunksReturned), ok);
    }

    /** What one probe of a blob has done to the counters and tables in `k` rounds. */
    ghost predicate Probing(ops: seq<OperatorInfo>, table: ResponseTable, accepts: InsertTable, k: nat, blobKey: string,
                            blobAgeHours: real, start: Start)
      reads this, db`operatorProbes, discovery, discovery.cache
    {
      && Valid()
      && ReportsOf(ops, table, k, start.history, discovery.history)
      && RowsOf(ops, table, accepts, k, start.rows, db.operatorProbes, blobKey)
      && RowsTold(ops, table, k, start.rows, db.operatorProbes, blobKey, blobAgeHours)
      && (insertLost <==> start.insertLost || !AllWritten(ops, table, accepts, k))
    }

    lemma ProbingBegins(ops: seq<OperatorInfo>, table: ResponseTable, accepts: InsertTable, blobKey: string,
                        blobAgeHours: real, start: Start)
      requires Valid() && start == Start(discovery.history, db.operatorProbes, insertLost)
      ensures Probing(ops, table, accepts, 0, blobKey, blobAgeHours, start)
    {
      NothingYet(ops, table, accepts, start, blobKey);
    }

    /** Round `k` of the retry loop over the operators still pending; `next` is the number of rounds after it. */
    method ProbeRound(ops: seq<OperatorInfo>, table: ResponseTable, accepts: InsertTable, blobKey: string, blobAgeHours: real,
                      k: nat, pending: seq<OperatorInfo>,
                      ghost next: nat, ghost totalChunks: nat, ghost okCount: nat, ghost start: Start)
      returns (tally: Tally)
      requires next == k + 1 && Collected(ops, table, k, totalChunks, okCount, pending)
      requires Probing(ops, table, accepts, k, blobKey, blobAgeHours, start)
      modifies this`insertLost, db`operatorProbes, discovery`failCount, discovery`history
      ensures Collected(ops, table, next, totalChunks + tally.chunks, okCount + tally.okCount, tally.failed)
      ensures Probing(ops, table, accepts, next, blobKey, blobAgeHours, start)
    {
      var tasks := Ask(pending, table, k);
      var flags := seq(|pending|, i requires 0 <= i < |pending| => accepts(pending[i], k));
      ghost var reported, written;
      tally, reported, written := ProbeSet(tasks, blobKey, blobAgeHours, flags);
      RoundFacts(ops, table, accepts, k, next, totalChunks, okCount, pending, tally, reported, written, flags,
                 start, old(discovery.history), old(db.operatorProbes), blobKey, blobAgeHours);
    }

    /** Sweeps over the operators that returned nothing, until recoverable or nothing more to gain. */
    method Collect(ops: seq<OperatorInfo>, table: ResponseTable, accepts: InsertTable, blobKey: string, blobAgeHours: real,
                   ghost start: Start)
      returns (totalChunks: nat, okCount: nat, rounds: nat)
      requires Valid() && DistinctIds(ops)
      requires start == Start(discovery.history, db.operatorProbes, insertLost)
      modifies this`insertLost, db`operatorProbes, discovery`failCount, discovery`history
      ensures rounds == Rounds(ops, table)
      ensures totalChunks == ChunksBy(ops, table, rounds) && okCount == OksBy(ops, table, rounds)
      ensures Probing(ops, table, accepts, rounds, blobKey, blobAgeHours, start)
    {
      hide *;
      totalChunks, okCount, rounds := 0, 0, 0;
      NothingCollected(ops, table);
      ProbingBegins(ops, table, accepts, blobKey, blobAgeHours, start);
      var pending, done := ops, false;
      while !done
        invariant rounds <= Rounds(ops, table) && (done <==> rounds == Rounds(ops, table))
        invariant Collected(ops, table, rounds, totalChunks, okCount, pending)
        invariant Probing(ops, table, accepts, rounds, blobKey, blobAgeHours, start)
        decreases Rounds(ops, table) - rounds
      {
        var chunks;
        chunks, totalChunks, okCount, rounds, pending :=
          AddRound(ops, table, accepts, blobKey, blobAgeHours, totalChunks, okCount, rounds, pending, start);
        done := LoopTests(ops, table, rounds, chunks, totalChunks, okCount, pending);
      }
      CollectedTotals(ops, table, rounds, totalChunks, okCount, pending);
    }

    /** One round with the updates of the running totals. */
    method AddRound(ops: seq<OperatorInfo>, table: ResponseTable, accepts: InsertTable, blobKey: string, blobAgeHours: real,
                    total: nat, ok: nat, k: nat, pending: seq<OperatorInfo>, ghost start: Start)
      returns (chunks: nat, totalChunks: nat, okCount: nat, rounds: nat, failed: seq<OperatorInfo>)
      requires Collected(ops, table, k, total, ok, pending)
      requires Probing(ops, table, accepts, k, blobKey, blobAgeHours, start)
      modifies this`insertLost, db`operatorProbes, discovery`failCount, discovery`history
      ensures rounds == k + 1 && totalChunks == total + chunks && total == ChunksBy(ops, table, k)
      ensures Collected(ops, table, rounds, totalChunks, okCount, failed)
      ensures Probing(ops, table, accepts, rounds, blobKey, blobAgeHours, start)
    {
      rounds := k + 1;
      var tally := ProbeRound(ops, table, accepts, blobKey, blobAgeHours, k, pending, rounds, total, ok, start);
      chunks, failed := tally.chunks, tally.failed;
      totalChunks := total + chunks;
      okCount := ok + tally.okCount;
    }

    /**
     * Probes every operator for the blob and records the verdict.  `table` is what each operator
     * answers in each round, `accepts` and `retrievalOk` decide which inserts take effect.
     */
    method ProbeAndRetrieve(quorums: seq<Option<seq<OperatorInfo>>>, now: int, later: int,
                            table: ResponseTable, accepts: InsertTable, retrievalOk: bool, round: real -> real,
                            blobKey: string, blobAgeHours: real)
      returns (outcome: Option<Outcome>, ghost ops: seq<OperatorInfo>)
      requires Valid() && |quorums| == MAX_QUORUMS
      modifies this`insertLost, db`operatorProbes, db`operatorRetrievals
      modifies discovery`failCount, discovery`history, discovery`cache, discovery`cacheTime, discovery`lastFetch
      ensures Valid() && DistinctIds(ops)
      // no operators: nothing happens
      ensures outcome == None <==> !old(discovery.cache.Length > 0 && now - discovery.cacheTime < discovery.ttl) && Fetched(quorums) == []
      ensures outcome == None ==>
        && db.operatorProbes == old(db.operatorProbes) && db.operatorRetrievals == old(db.operatorRetrievals)
        && discovery.history == old(discovery.history)
      // the operators asked are those of the last fetch, and the result depends on their answers only
      ensures outcome.Some? ==> multiset(ops) == multiset(discovery.lastFetch)
      ensures outcome.Some? ==> outcome.value == Expected(ops, table, round)
      // every operator is reported with each answer it gave until it contributed
      ensures outcome.Some? ==> ReportsOf(ops, table, outcome.value.rounds, old(discovery.history), discovery.history)
      // the rows written add up to the chunks collected
      ensures outcome.Some? ==>
        RowsOf(ops, table, accepts, outcome.value.rounds, old(db.operatorProbes), db.operatorProbes, blobKey)
      // and every new row tells, column by column, one of the answers
      ensures outcome.Some? ==>
        RowsTold(ops, table, outcome.value.rounds, old(db.operatorProbes), db.operatorProbes, blobKey, blobAgeHours)
      ensures outcome.Some? ==>
        (insertLost <==> old(insertLost) || !AllWritten(ops, table, accepts, outcome.value.rounds))
      // one row tells the verdict and the counts, unless the run fell short while those that answered
      // still held four chunks each, or the insert failed
      ensures outcome.Some? && Rounding(round) ==>
        var o, before, after := outcome.value, old(db.operatorRetrievals), db.operatorRetrievals;
        if retrievalOk && !(o.okCount > 0 && 4 * o.okCount <= o.totalChunks < 1024) then
          && |after| == |before| + 1 && after[..|before|] == before
          && var row := after[|before|];
          && row.blobKey == blobKey && row.blobAgeHours == blobAgeHours
          && row.operatorsTotal == |ops| && row.operatorsOk == o.okCount
          && row.chunksCollected == o.totalChunks && row.chunksRequired == 1024
          && (row.decodeSuccess <==> o.totalChunks >= 1024)
        else after == before
    {
      ops := [];
      var fetched := discovery.GetOperators(quorums, now, later);
      if fetched == None { return None, ops; }
      hide ReportsOf, RowsOf, RowsTold, AllWritten, Expected, Rounding, Fetched, FirstSeen;
      var allOperators := fetched.value[..];
      ops := allOperators;
      var o := ProbeOperators(allOperators, table, accepts, retrievalOk, round, blobKey, blobAgeHours,
                              Start(discovery.history, db.operatorProbes, insertLost));
      outcome := Some(o);
    }

    /** The probe of a blob once the operators are known. */
    method ProbeOperators(ops: seq<OperatorInfo>, table: ResponseTable, accepts: InsertTable, retrievalOk: bool,
                          round: real -> real, blobKey: string, blobAgeHours: real, ghost start: Start)
      returns (outcome: Outcome)
      requires Valid() && DistinctIds(ops)
      requires start == Start(discovery.history, db.operatorProbes, insertLost)
      modifies this`insertLost, db`operatorProbes, db`operatorRetrievals, discovery`failCount, discovery`history
      ensures outcome == Expected(ops, table, round)
      ensures Probing(ops, table, accepts, outcome.rounds, blobKey, blobAgeHours, start)
      ensures Rounding(round) ==>
        var o, before, after := outcome, old(db.operatorRetrievals), db.operatorRetrievals;
        if retrievalOk && !(o.okCount > 0 && 4 * o.okCount <= o.totalChunks < 1024) then
          && |after| == |before| + 1 && after[..|before|] == before
          && var row := after[|before|];
          && row.blobKey == blobKey && row.blobAgeHours == blobAgeHours
          && row.operatorsTotal == |ops| && row.operatorsOk == o.okCount
          && row.chunksCollected == o.totalChunks && row.chunksRequired == 1024
          && (row.decodeSuccess <==> o.totalChunks >= 1024)
        else after == before
    {
      hide Probing, Valid, Rounds, ChunksBy, OksBy, Judge, Rounding;
      var totalChunks, okCount, rounds := Collect(ops, table, accepts, blobKey, blobAgeHours, start);
      InconclusiveAt(ops, table, rounds, round);
      var verdict := RecordVerdict(|ops|, totalChunks, okCount, retrievalOk, round, blobKey, blobAgeHours);
      outcome := Outcome(rounds, totalChunks, okCount, verdict);
    }

    /** The verdict, and the retrieval row unless the run was inconclusive. */
    method RecordVerdict(operators: nat, totalChunks: nat, okCount: nat, retrievalOk: bool, round: real -> real,
                         blobKey: string, blobAgeHours: real) returns (verdict: Verdict)
      modifies db`operatorRetrievals
      ensures verdict == Judge(totalChunks, okCount, round)
      ensures verdict == Inconclusive || !retrievalOk ==> db.operatorRetrievals == old(db.operatorRetrievals)
      ensures verdict != Inconclusive && retrievalOk ==>
        var before, after := old(db.operatorRetrievals), db.operatorRetrievals;
        && |after| == |before| + 1 && after[..|before|] == before
        && var row := after[|before|];
        && row.blobKey == blobKey && row.blobAgeHours == blobAgeHours
        && row.operatorsTotal == operators && row.operatorsOk == okCount
        && row.chunksCollected == totalChunks && row.chunksRequired == 1024
        && (row.decodeSuccess <==> totalChunks >= 1024)
    {
      var recoverable := totalChunks >= MIN_CHUNKS_FOR_RECOVERY;
      if !recoverable {
        var chunksPerOk := 0.0;
        if okCount > 0 {
          chunksPerOk := round(totalChunks as real / okCount as real);
        }
        if chunksPerOk >= GC_CHUNKS_PER_OP_MAX {
          return Inconclusive;
        }
      }
      verdict := if recoverable then Recoverable else AtRisk;
      db.InsertOperatorRetrieval(
        RetrievalRow(blobKey, blobAgeHours, operators, okCount, totalChunks, MIN_CHUNKS_FOR_RECOVERY, recoverable),
        retrievalOk);
    }
  }
}
