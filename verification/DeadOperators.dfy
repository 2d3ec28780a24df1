/** The "dead operators" panels of the dashboards, computed from operator_probes rows. */
module DeadOperators {
  import opened Operators
  import opened FailStreaks
  import opened Database

  /** The success column of one operator, oldest row first. */
  function RowOutcomes(rows: seq<ProbeRow>, id: OperatorPrefix): seq<bool> {
    if |rows| == 0 then []
    else
      var last := rows[|rows| - 1];
      RowOutcomes(rows[..|rows| - 1], id) + if last.operatorId == id then [last.success] else []
  }

  function LastRows(outcomes: seq<bool>, n: nat): seq<bool> {
    if |outcomes| <= n then outcomes else outcomes[|outcomes| - n..]
  }

  function Count(outcomes: seq<bool>, value: bool): nat {
    if |outcomes| == 0 then 0
    else (if outcomes[0] == value then 1 else 0) + Count(outcomes[1..], value)
  }

  /** Operators panel: among the last five rows exactly five are failures. */
  predicate OperatorsPanelDead(rows: seq<ProbeRow>, id: OperatorPrefix) {
    Count(LastRows(RowOutcomes(rows, id), 5), false) == 5
  }

  /** Threat panel: at least five rows and no success. */
  predicate ThreatPanelDead(rows: seq<ProbeRow>, id: OperatorPrefix) {
    |RowOutcomes(rows, id)| >= 5 && Count(RowOutcomes(rows, id), true) == 0
  }

  ghost function RowIds(rows: seq<ProbeRow>): set<OperatorPrefix> {
    set i: nat | i < |rows| :: rows[i].operatorId
  }

  /** The number the operators panel shows. */
  ghost function OperatorsPanel(rows: seq<ProbeRow>): set<OperatorPrefix> {
    set id | id in RowIds(rows) && OperatorsPanelDead(rows, id)
  }

  ghost function ThreatPanel(rows: seq<ProbeRow>): set<OperatorPrefix> {
    set id | id in RowIds(rows) && ThreatPanelDead(rows, id)
  }

  ghost predicate PrefixesDistinct(ids: set<OperatorId>) {
    forall a, b :: a in ids && b in ids && Prefix(a) == Prefix(b) ==> a == b
  }

  /** The row belongs to an operator that was reported. */
  ghost predicate Known(history: seq<Report>, row: ProbeRow) {
    exists id :: id in ReportedIds(history) && Prefix(id) == row.operatorId
  }

  /**
   * The table tells the same story as the report history: rows belong to reported operators and,
   * if prefixes identify operators, each has the same outcomes in the same order.
   */
  ghost predicate InStep(history: seq<Report>, rows: seq<ProbeRow>) {
    && (forall i :: 0 <= i < |rows| ==> Known(history, rows[i]))
    && (PrefixesDistinct(ReportedIds(history)) ==>
          forall id :: id in ReportedIds(history) ==> RowOutcomes(rows, Prefix(id)) == Outcomes(history, id))
  }

  lemma {:induction false} CountAll(outcomes: seq<bool>, value: bool)
    ensures Count(outcomes, value) <= |outcomes|
    ensures Count(outcomes, value) == |outcomes| <==> forall i :: 0 <= i < |outcomes| ==> outcomes[i] == value
    ensures Count(outcomes, value) == 0 <==> forall i :: 0 <= i < |outcomes| ==> outcomes[i] != value
  {
    if |outcomes| > 0 {
      CountAll(outcomes[1..], value);
      assert forall i :: 1 <= i < |outcomes| ==> outcomes[i] == outcomes[1..][i - 1];
    }
  }

  lemma PanelMeaning(rows: seq<ProbeRow>, id: OperatorPrefix)
    ensures OperatorsPanelDead(rows, id) <==> EndsWithFailures(RowOutcomes(rows, id), 5)
    ensures ThreatPanelDead(rows, id) ==> OperatorsPanelDead(rows, id)
  {
    var all := RowOutcomes(rows, id);
    var last := LastRows(all, 5);
    CountAll(last, false);
    CountAll(all, true);
    if |all| >= 5 {
      assert forall i :: |all| - 5 <= i < |all| ==> all[i] == last[i - (|all| - 5)];
      assert forall i :: 0 <= i < 5 ==> last[i] == all[i + (|all| - 5)];
    }
  }

  lemma RowOutcomesSnoc(rows: seq<ProbeRow>, row: ProbeRow, id: OperatorPrefix)
    ensures RowOutcomes(rows + [row], id)
         == if row.operatorId == id then RowOutcomes(rows, id) + [row.success] else RowOutcomes(rows, id)
  {
    assert (rows + [row])[..|rows|] == rows;
  }

  lemma {:induction false} RowOutcomesConcat(a: seq<ProbeRow>, b: seq<ProbeRow>, id: OperatorPrefix)
    ensures RowOutcomes(a + b, id) == RowOutcomes(a, id) + RowOutcomes(b, id)
    decreases |b|
  {
    if |b| == 0 {
      assert a + b == a;
    } else {
      var front, last := b[..|b| - 1], b[|b| - 1];
      var tail := if last.operatorId == id then [last.success] else [];
      calc {
        RowOutcomes(a + b, id);
        { assert a + b == (a + front) + [last]; RowOutcomesSnoc(a + front, last, id); }
        RowOutcomes(a + front, id) + tail;
        { RowOutcomesConcat(a, front, id); }
        RowOutcomes(a, id) + RowOutcomes(front, id) + tail;
        RowOutcomes(a, id) + (RowOutcomes(front, id) + tail);
        RowOutcomes(a, id) + RowOutcomes(b, id);
      }
    }
  }

  lemma {:induction false} NoRowsNoOutcomes(rows: seq<ProbeRow>, id: OperatorPrefix)
    requires forall i :: 0 <= i < |rows| ==> rows[i].operatorId != id
    ensures RowOutcomes(rows, id) == []
  {
    if |rows| > 0 { NoRowsNoOutcomes(rows[..|rows| - 1], id); }
  }

  lemma {:induction false} OutcomesNeedRows(rows: seq<ProbeRow>, id: OperatorPrefix)
    ensures RowOutcomes(rows, id) != [] ==> id in RowIds(rows)
  {
    if id !in RowIds(rows) {
      assert forall i: nat :: i < |rows| ==> rows[i].operatorId in RowIds(rows);
      NoRowsNoOutcomes(rows, id);
    }
  }

  /**
   * While table and history are in step and prefixes identify operators, an operator is blacklisted
   * exactly when the operators panel counts it, and the two totals agree.
   */
  lemma PanelIsBlacklist(history: seq<Report>, rows: seq<ProbeRow>, blacklist: set<OperatorId>)
    requires InStep(history, rows)
    requires PrefixesDistinct(ReportedIds(history))
    requires blacklist == set id | id in ReportedIds(history) && EndsWithFailures(Outcomes(history, id), 5)
    ensures OperatorsPanel(rows) == set id | id in blacklist :: Prefix(id)
    ensures |OperatorsPanel(rows)| == |blacklist|
    ensures ThreatPanel(rows) <= OperatorsPanel(rows)
  {
    var image := set id | id in blacklist :: Prefix(id);
    forall p ensures p in OperatorsPanel(rows) <==> p in image {
      PanelMeaning(rows, p);
      if p in OperatorsPanel(rows) {
        var i: nat :| i < |rows| && rows[i].operatorId == p;
        assert Known(history, rows[i]);
        var id :| id in ReportedIds(history) && Prefix(id) == p;
        assert id in blacklist;
      }
      if p in image {
        var id :| id in blacklist && Prefix(id) == p;
        assert |RowOutcomes(rows, p)| >= 5;
        OutcomesNeedRows(rows, p);
      }
    }
    assert OperatorsPanel(rows) == image;
    ImageSize(blacklist, image);
    forall p | p in ThreatPanel(rows) ensures p in OperatorsPanel(rows) {
      PanelMeaning(rows, p);
    }
  }

  lemma {:induction false} ImageSize(ids: set<OperatorId>, image: set<OperatorPrefix>)
    requires PrefixesDistinct(ids)
    requires image == set id | id in ids :: Prefix(id)
    ensures |image| == |ids|
    decreases ids
  {
    if ids != {} {
      var a :| a in ids;
      var rest := ids - {a};
      var restImage := set id | id in rest :: Prefix(id);
      ImageSize(rest, restImage);
      assert Prefix(a) !in restImage;
      assert image == restImage + {Prefix(a)};
    }
  }

  /** Chunks that the recoverability panel adds up for one blob. */
  function PanelChunks(rows: seq<ProbeRow>, blobKey: string): nat {
    if |rows| == 0 then 0
    else
      var last := rows[|rows| - 1];
      PanelChunks(rows[..|rows| - 1], blobKey)
      + if last.blobKey == blobKey && last.success then last.chunksReturned else 0
  }

  lemma PanelChunksSnoc(rows: seq<ProbeRow>, row: ProbeRow, blobKey: string)
    ensures PanelChunks(rows + [row], blobKey)
         == PanelChunks(rows, blobKey) + if row.blobKey == blobKey && row.success then row.chunksReturned else 0
  {
    assert (rows + [row])[..|rows|] == rows;
  }

  lemma {:induction false} PanelChunksConcat(a: seq<ProbeRow>, b: seq<ProbeRow>, blobKey: string)
    ensures PanelChunks(a + b, blobKey) == PanelChunks(a, blobKey) + PanelChunks(b, blobKey)
    decreases |b|
  {
    if |b| == 0 {
      assert a + b == a;
    } else {
      var front, last := b[..|b| - 1], b[|b| - 1];
      PanelChunksConcat(a, front, blobKey);
      PanelChunksSnoc(a + front, last, blobKey);
      assert a + b == (a + front) + [last];
    }
  }
}
