/**
 * The ejection indexer's cursor protocol as a step machine.  A poll reads the stored cursor, reads
 * the chain head, queries one block range, inserts its events one by one and stores the cursor.
 * It can stop between any two steps, because a call failed or because the process died.
 */
module EjectionScan {
  import opened Common
  import opened Operators

  const FINALITY_BLOCKS := 64
  const MAX_BLOCK_RANGE := 10000
  const TWO_63 := 0x8000_0000_0000_0000
  const TWO_64 := 0x1_0000_0000_0000_0000

  type Uint64 = x: int | 0 <= x < TWO_64

  /** Conversion to a signed 64-bit integer, with wrap-around. */
  function ToInt64(x: int): (r: int)
    ensures -TWO_63 <= r < TWO_63
  {
    (x + TWO_63) % TWO_64 - TWO_63
  }

  /** int64(head) - finalityBlocks in 64-bit arithmetic. */
  function SafeHead(head: Uint64): int {
    ToInt64(ToInt64(head) - FINALITY_BLOCKS)
  }

  /** For every head that a uint64 can hold, a positive safe head is at least 64 blocks behind. */
  lemma SafeHeadIsFinal(head: Uint64)
    ensures SafeHead(head) <= head - 64
    ensures head < 0x8000_0000_0000_0000 ==> SafeHead(head) == head - 64
  {
    if head < TWO_63 {
      assert (head + TWO_63) % TWO_64 == head + TWO_63;
    } else {
      assert (head + TWO_63) % TWO_64 == head - TWO_63;
    }
  }

  // ---------------------------------------------------------------- logs and rows

  datatype EventKey = EventKey(txHash: nat, logIndex: nat)

  datatype Log = Log(blockNumber: int, key: EventKey, topics: seq<OperatorId>, data: seq<nat>)

  /** The columns of an ejection row that the chain determines; event_time is not one of them. */
  datatype Event = Event(blockNumber: int, operatorId: OperatorPrefix, quorumNumber: nat)

  datatype EventRow = EventRow(eventTime: int, event: Event)

  type EventTable = map<EventKey, EventRow>

  /** Logs without an operator topic are skipped. */
  predicate Eligible(log: Log) {
    |log.topics| >= 2
  }

  function EventOf(log: Log): Event
    requires Eligible(log)
  {
    Event(log.blockNumber, Prefix(log.topics[1]), if |log.data| >= 32 then log.data[31] else 0)
  }

  function InsertEvent(table: EventTable, key: EventKey, row: EventRow): EventTable {
    if key in table then table else table[key := row]
  }

  function Events(table: EventTable): map<EventKey, Event> {
    map key | key in table :: table[key].event
  }

  // ---------------------------------------------------------------- the machine

  datatype Query = Query(from: int, to: int, logs: seq<Log>)

  /** Where the current poll stands. */
  datatype Stage =
    | Idle
    | HaveCursor(cursor: int)
    | HaveRange(from: int, to: int)
    | Inserting(query: Query, next: nat)

  /**
   * `cursor` and `rows` are what the database holds.  The other fields only record the past: the
   * largest head seen, the log queries that succeeded, those of them whose poll stored the cursor,
   * and the keys of inserts that failed.
   */
  datatype State = State(
    cursor: int,
    rows: EventTable,
    stage: Stage,
    maxHead: int,
    queries: seq<Query>,
    scanned: seq<Query>,
    lost: set<EventKey>)

  const INITIAL := State(0, map[], Idle, 0, [], [], {})

  datatype Action =
    | ReadCursor
    | ReadHead(head: Uint64)
    | FilterLogs(logs: seq<Log>)
    | InsertNext(ok: bool, eventTime: int)
    | StoreCursor(ok: bool)
    | Abort

  /** Last block of the range queried from `cursor` when `safeHead` lies above it. */
  function RangeEnd(cursor: int, safeHead: int): int {
    var from := cursor + 1;
    if safeHead - from > MAX_BLOCK_RANGE then from + MAX_BLOCK_RANGE else safeHead
  }

  /** One step; an action that does not fit the stage changes nothing. */
  function Step(s: State, a: Action): State {
    match (a, s.stage)
    case (ReadCursor, Idle) => s.(stage := HaveCursor(s.cursor))
    case (ReadHead(head), HaveCursor(cursor)) =>
      var seen := s.(maxHead := if head > s.maxHead then head else s.maxHead);
      if SafeHead(head) <= cursor then seen.(stage := Idle)
      else seen.(stage := HaveRange(cursor + 1, RangeEnd(cursor, SafeHead(head))))
    case (FilterLogs(logs), HaveRange(from, to)) =>
      s.(stage := Inserting(Query(from, to, logs), 0), queries := s.queries + [Query(from, to, logs)])
    case (InsertNext(ok, eventTime), Inserting(query, next)) =>
      if next < |query.logs| then Insert(s, query, next, ok, eventTime) else s
    case (StoreCursor(ok), Inserting(query, next)) =>
      if next < |query.logs| then s
      else if ok then s.(stage := Idle, cursor := query.to, scanned := s.scanned + [query])
      else s.(stage := Idle)
    case (Abort, _) => s.(stage := Idle)
    case _ => s
  }

  function Insert(s: State, query: Query, next: nat, ok: bool, eventTime: int): State
    requires next < |query.logs|
  {
    var log := query.logs[next];
    var t := s.(stage := Inserting(query, next + 1));
    if !Eligible(log) then t
    else if ok then t.(rows := InsertEvent(s.rows, log.key, EventRow(eventTime, EventOf(log))))
    else t.(lost := s.lost + {log.key})
  }

  /** The state after any schedule of polls, failures, crashes and restarts. */
  function Exec(s: State, sched: seq<Action>): State {
    if |sched| == 0 then s else Step(Exec(s, sched[..|sched| - 1]), sched[|sched| - 1])
  }

  lemma ExecNone(s: State)
    ensures Exec(s, []) == s
  {
  }

  lemma ExecSnoc(s: State, sched: seq<Action>, a: Action)
    ensures Exec(s, sched + [a]) == Step(Exec(s, sched), a)
  {
    assert (sched + [a])[..|sched|] == sched;
  }

  lemma {:induction false} ExecConcat(s: State, a: seq<Action>, b: seq<Action>)
    ensures Exec(s, a + b) == Exec(Exec(s, a), b)
    decreases |b|
  {
    if |b| == 0 {
      assert a + b == a;
    } else {
      hide Exec, Step;
      var front, last := b[..|b| - 1], b[|b| - 1];
      ExecConcat(s, a, front);
      assert b == front + [last];
      ExecSnoc(Exec(s, a), front, last);
      ExecSnoc(s, a + front, last);
      assert a + b == (a + front) + [last];
    }
  }

  // ---------------------------------------------------------------- safety

  ghost predicate RangeOk(q: Query) {
    1 <= q.from <= q.to && q.to - q.from <= MAX_BLOCK_RANGE
  }

  /** The scanned ranges follow each other without gap or overlap, from block 1 to `end`. */
  ghost predicate Tiles(scanned: seq<Query>, end: int) {
    if |scanned| == 0 then end == 0
    else
      var last := scanned[|scanned| - 1];
      last.from <= last.to == end && Tiles(scanned[..|scanned| - 1], last.from - 1)
  }

  /** Every event among the first `n` logs is stored, or its insert failed at some time. */
  ghost predicate Accounted(s: State, logs: seq<Log>, n: nat) {
    forall i :: 0 <= i < n && i < |logs| && Eligible(logs[i]) ==> logs[i].key in s.rows || logs[i].key in s.lost
  }

  /** The row of `key` was made from a log that some query returned. */
  ghost predicate Justified(s: State, key: EventKey) {
    exists q, i :: 0 <= q < |s.queries| && 0 <= i < |s.queries[q].logs|
      && Eligible(s.queries[q].logs[i]) && s.queries[q].logs[i].key == key
      && key in s.rows && s.rows[key].event == EventOf(s.queries[q].logs[i])
  }

  ghost predicate StageOk(s: State) {
    match s.stage
    case Idle => true
    case HaveCursor(cursor) => cursor == s.cursor
    case HaveRange(from, to) => from == s.cursor + 1 && RangeOk(Query(from, to, [])) && to + FINALITY_BLOCKS <= s.maxHead
    case Inserting(query, next) =>
      && query.from == s.cursor + 1 && RangeOk(query) && query.to + FINALITY_BLOCKS <= s.maxHead
      && next <= |query.logs| && query in s.queries && Accounted(s, query.logs, next)
  }

  ghost predicate CursorOk(s: State) {
    && 0 <= s.cursor
    && (s.cursor > 0 ==> s.cursor + FINALITY_BLOCKS <= s.maxHead)
    && Tiles(s.scanned, s.cursor)
  }

  ghost predicate QueriesOk(s: State) {
    && (forall i :: 0 <= i < |s.queries| ==> RangeOk(s.queries[i]))
    && (forall i :: 0 <= i < |s.scanned| ==> s.scanned[i] in s.queries)
  }

  ghost predicate RowsOk(s: State) {
    && (forall i :: 0 <= i < |s.scanned| ==> Accounted(s, s.scanned[i].logs, |s.scanned[i].logs|))
    && (forall key :: key in s.rows ==> Justified(s, key))
  }

  ghost predicate Safe(s: State) {
    StageOk(s) && CursorOk(s) && QueriesOk(s) && RowsOk(s)
  }

  /** More rows, more failed inserts and more queries keep earlier accounts and justifications. */
  ghost predicate Grows(s: State, t: State) {
    && s.queries <= t.queries
    && s.lost <= t.lost
    && forall key :: key in s.rows ==> key in t.rows && t.rows[key] == s.rows[key]
  }

  lemma GrowsKeeps(s: State, t: State)
    requires Grows(s, t)
    ensures forall logs, n: nat :: Accounted(s, logs, n) ==> Accounted(t, logs, n)
    ensures forall key :: Justified(s, key) ==> Justified(t, key)
  {
    forall key | Justified(s, key) ensures Justified(t, key) {
      var q, i :| 0 <= q < |s.queries| && 0 <= i < |s.queries[q].logs|
        && Eligible(s.queries[q].logs[i]) && s.queries[q].logs[i].key == key
        && key in s.rows && s.rows[key].event == EventOf(s.queries[q].logs[i]);
      assert t.queries[q] == s.queries[q];
    }
  }

  lemma InsertKeepsRows(s: State, query: Query, next: nat, ok: bool, eventTime: int)
    requires RowsOk(s) && query in s.queries && next < |query.logs|
    ensures RowsOk(Insert(s, query, next, ok, eventTime))
  {
    hide EventOf, Accounted;
    var t := Insert(s, query, next, ok, eventTime);
    GrowsKeeps(s, t);
    forall key | key in t.rows ensures Justified(t, key) {
      if key !in s.rows {
        var q :| 0 <= q < |s.queries| && s.queries[q] == query;
        assert Eligible(t.queries[q].logs[next]) && t.queries[q].logs[next].key == key;
      } else {
        assert Justified(s, key);
      }
    }
    forall i | 0 <= i < |t.scanned| ensures Accounted(t, t.scanned[i].logs, |t.scanned[i].logs|) {
      assert Accounted(s, s.scanned[i].logs, |s.scanned[i].logs|);
    }
  }

  lemma InsertAccounts(s: State, query: Query, next: nat, ok: bool, eventTime: int)
    requires Accounted(s, query.logs, next) && next < |query.logs|
    ensures Accounted(Insert(s, query, next, ok, eventTime), query.logs, next + 1)
  {
    hide EventOf;
    GrowsKeeps(s, Insert(s, query, next, ok, eventTime));
  }

  lemma InsertSafe(s: State, query: Query, next: nat, ok: bool, eventTime: int)
    requires Safe(s) && s.stage == Inserting(query, next) && next < |query.logs|
    ensures Safe(Insert(s, query, next, ok, eventTime))
  {
    var t := Insert(s, query, next, ok, eventTime);
    hide RowsOk, Justified, EventOf, Tiles;
    InsertKeepsRows(s, query, next, ok, eventTime);
    InsertAccounts(s, query, next, ok, eventTime);
    hide Accounted, Grows;
  }

  lemma RowsKept(s: State, t: State)
    requires RowsOk(s) && Grows(s, t) && t.rows == s.rows && t.scanned == s.scanned
    ensures RowsOk(t)
  {
    GrowsKeeps(s, t);
    forall i | 0 <= i < |t.scanned| ensures Accounted(t, t.scanned[i].logs, |t.scanned[i].logs|) {
      assert Accounted(s, s.scanned[i].logs, |s.scanned[i].logs|);
    }
    forall key | key in t.rows ensures Justified(t, key) {
      assert Justified(s, key);
    }
  }

  lemma HeadSafe(s: State, head: Uint64, cursor: int)
    requires Safe(s) && s.stage == HaveCursor(cursor)
    ensures Safe(Step(s, ReadHead(head)))
  {
    SafeHeadIsFinal(head);
    hide SafeHead, Tiles, EventOf;
    RowsKept(s, Step(s, ReadHead(head)));
  }

  lemma QuerySafe(s: State, logs: seq<Log>, from: int, to: int)
    requires Safe(s) && s.stage == HaveRange(from, to)
    ensures Safe(Step(s, FilterLogs(logs)))
  {
    RowsKept(s, Step(s, FilterLogs(logs)));
  }

  lemma StoreSafe(s: State, query: Query)
    requires Safe(s) && s.stage == Inserting(query, |query.logs|)
    ensures Safe(Step(s, StoreCursor(true)))
  {
    var t := Step(s, StoreCursor(true));
    assert t.scanned[..|t.scanned| - 1] == s.scanned;
    assert RowsOk(t.(scanned := s.scanned)) by { RowsKept(s, t.(scanned := s.scanned)); }
    forall i | 0 <= i < |t.scanned| ensures Accounted(t, t.scanned[i].logs, |t.scanned[i].logs|) {
      if i < |s.scanned| { assert Accounted(s, s.scanned[i].logs, |s.scanned[i].logs|); }
    }
    forall key | key in t.rows ensures Justified(t, key) {
      assert Justified(s, key);
    }
  }

  /** A step that only changes the stage. */
  lemma StageSafe(s: State, stage: Stage)
    requires Safe(s) && StageOk(s.(stage := stage))
    ensures Safe(s.(stage := stage))
  {
    RowsKept(s, s.(stage := stage));
  }

  lemma StepSafe(s: State, a: Action)
    requires Safe(s)
    ensures Safe(Step(s, a))
  {
    match (a, s.stage)
    case (ReadHead(head), HaveCursor(cursor)) => HeadSafe(s, head, cursor);
    case (FilterLogs(logs), HaveRange(from, to)) => QuerySafe(s, logs, from, to);
    case (InsertNext(ok, eventTime), Inserting(query, next)) =>
      if next < |query.logs| { InsertSafe(s, query, next, ok, eventTime); }
    case (StoreCursor(ok), Inserting(query, next)) =>
      if next == |query.logs| {
        if ok { StoreSafe(s, query); } else { StageSafe(s, Idle); }
      }
    case (ReadCursor, Idle) => StageSafe(s, HaveCursor(s.cursor));
    case (Abort, _) => StageSafe(s, Idle);
    case _ =>
  }

  /** Every reachable state is safe, whatever the calls answer and wherever the process dies. */
  lemma {:induction false} AlwaysSafe(sched: seq<Action>)
    ensures Safe(Exec(INITIAL, sched))
  {
    if |sched| > 0 {
      AlwaysSafe(sched[..|sched| - 1]);
      StepSafe(Exec(INITIAL, sched[..|sched| - 1]), sched[|sched| - 1]);
    }
  }

  /** The stored cursor never goes back. */
  lemma {:induction false} CursorNeverFalls(sched: seq<Action>, k: nat)
    requires k <= |sched|
    ensures Exec(INITIAL, sched[..k]).cursor <= Exec(INITIAL, sched).cursor
    decreases |sched| - k
  {
    if k < |sched| {
      AlwaysSafe(sched[..k]);
      assert sched[..k + 1] == sched[..k] + [sched[k]];
      ExecSnoc(INITIAL, sched[..k], sched[k]);
      CursorNeverFalls(sched, k + 1);
    } else {
      assert sched[..k] == sched;
    }
  }

  /** The largest head of the record is one that a head query answered. */
  lemma {:induction false} MaxHeadWasSeen(sched: seq<Action>)
    ensures Exec(INITIAL, sched).maxHead == 0 || exists k :: 0 <= k < |sched| && sched[k].ReadHead? && sched[k].head == Exec(INITIAL, sched).maxHead
  {
    if |sched| > 0 {
      var n := |sched| - 1;
      var before, after := Exec(INITIAL, sched[..n]), Exec(INITIAL, sched);
      MaxHeadWasSeen(sched[..n]);
      MaxHeadStep(before, sched[n]);
      hide Exec, Step;
      if after.maxHead == before.maxHead && before.maxHead != 0 {
        var k :| 0 <= k < n && sched[..n][k].ReadHead? && sched[..n][k].head == before.maxHead;
        assert sched[k].ReadHead? && sched[k].head == after.maxHead;
      }
    }
  }

  lemma MaxHeadStep(s: State, a: Action)
    ensures Step(s, a).maxHead == s.maxHead || (a.ReadHead? && a.head == Step(s, a).maxHead)
  {
  }

  lemma {:induction false} TilesCover(scanned: seq<Query>, end: int, b: int) returns (i: nat)
    requires Tiles(scanned, end)
    requires 1 <= b <= end
    ensures i < |scanned| && scanned[i].from <= b <= scanned[i].to
  {
    i := |scanned| - 1;
    if b < scanned[i].from {
      i := TilesCover(scanned[..i], scanned[i].from - 1, b);
    }
  }

  /**
   * Every block in 1..cursor lies in a range of at most 10001 blocks whose log query succeeded and
   * whose events are all stored, except those whose insert failed; the cursor stays 64 blocks
   * behind the largest head seen.
   */
  lemma CursorMeansScanned(sched: seq<Action>, b: int) returns (q: Query)
    requires 1 <= b <= Exec(INITIAL, sched).cursor
    ensures var s := Exec(INITIAL, sched);
      && s.cursor <= s.maxHead - 64
      && q in s.queries && q.from <= b <= q.to
      && q.to - q.from + 1 <= 10001
      && forall i :: 0 <= i < |q.logs| && |q.logs[i].topics| >= 2 ==> q.logs[i].key in s.rows || q.logs[i].key in s.lost
  {
    var s := Exec(INITIAL, sched);
    AlwaysSafe(sched);
    var i := TilesCover(s.scanned, s.cursor, b);
    q := s.scanned[i];
    assert q in s.queries;
    assert Accounted(s, q.logs, |q.logs|);
  }

  // ---------------------------------------------------------------- equivalence with a single scan

  /** The logs of blocks from..to of a finalised chain, in chain order. */
  function ChainLogs(chain: int -> seq<Log>, from: int, to: int): seq<Log>
    decreases (to - from + 1)
  {
    if to < from then [] else ChainLogs(chain, from, to - 1) + chain(to)
  }

  ghost predicate ChainOk(chain: int -> seq<Log>) {
    forall b: int, i: int :: 0 <= i < |chain(b)| ==> chain(b)[i].blockNumber == b
  }

  /** One scan over a list of logs: the first log of a key makes its row. */
  function ScanLogs(logs: seq<Log>): map<EventKey, Event> {
    if |logs| == 0 then map[]
    else
      var front, last := ScanLogs(logs[..|logs| - 1]), logs[|logs| - 1];
      if Eligible(last) && last.key !in front then front[last.key := EventOf(last)] else front
  }

  /** The rows of blocks up to `b`. */
  function UpTo(events: map<EventKey, Event>, b: int): map<EventKey, Event> {
    map key | key in events && events[key].blockNumber <= b :: events[key]
  }

  /** Finalised logs do not change between queries. */
  ghost predicate Honest(chain: int -> seq<Log>, s: State, a: Action) {
    a.FilterLogs? && s.stage.HaveRange? ==> a.logs == ChainLogs(chain, s.stage.from, s.stage.to)
  }

  ghost predicate HonestRun(chain: int -> seq<Log>, sched: seq<Action>) {
    forall k :: 0 <= k < |sched| ==> Honest(chain, Exec(INITIAL, sched[..k]), sched[k])
  }

  /** In addition, inserts take effect. */
  ghost predicate Faithful(chain: int -> seq<Log>, s: State, a: Action) {
    Honest(chain, s, a) && (a.InsertNext? ==> a.ok)
  }

  ghost predicate FaithfulRun(chain: int -> seq<Log>, sched: seq<Action>) {
    forall k :: 0 <= k < |sched| ==> Faithful(chain, Exec(INITIAL, sched[..k]), sched[k])
  }

  /**
   * `p` logs of the chain up to block `hi` have been met at least once, in chain order: the table
   * is the single scan of those, and everything up to the cursor (and up to the next log of the
   * present query) is among them.
   */
  ghost predicate ScanInv(chain: int -> seq<Log>, s: State, hi: int, p: nat) {
    && s.cursor <= hi
    && |ChainLogs(chain, 1, s.cursor)| <= p <= |ChainLogs(chain, 1, hi)|
    && Events(s.rows) == ScanLogs(ChainLogs(chain, 1, hi)[..p])
    && (s.stage.Inserting? ==>
          && s.stage.query.logs == ChainLogs(chain, s.stage.query.from, s.stage.query.to)
          && |ChainLogs(chain, 1, s.cursor)| + s.stage.next <= p)
  }

  lemma {:induction false} ChainSplit(chain: int -> seq<Log>, a: int, b: int)
    requires 0 <= a <= b
    ensures ChainLogs(chain, 1, b) == ChainLogs(chain, 1, a) + ChainLogs(chain, a + 1, b)
    decreases b - a
  {
    if a < b {
      ChainSplit(chain, a, b - 1);
    }
  }

  lemma {:induction false} ChainBlocks(chain: int -> seq<Log>, from: int, to: int)
    requires ChainOk(chain)
    requires from <= to + 1
    ensures forall i :: 0 <= i < |ChainLogs(chain, from, to)| ==>
      from <= ChainLogs(chain, from, to)[i].blockNumber <= to
    decreases (to - from + 1)
  {
    if from <= to {
      ChainBlocks(chain, from, to - 1);
      var front := ChainLogs(chain, from, to - 1);
      forall i | 0 <= i < |ChainLogs(chain, from, to)|
        ensures from <= ChainLogs(chain, from, to)[i].blockNumber <= to
      {
        if i >= |front| { assert ChainLogs(chain, from, to)[i] == chain(to)[i - |front|]; }
      }
    }
  }

  lemma {:induction false} ScanHasKey(logs: seq<Log>, i: nat)
    requires i < |logs| && Eligible(logs[i])
    ensures logs[i].key in ScanLogs(logs)
  {
    if i < |logs| - 1 { ScanHasKey(logs[..|logs| - 1], i); }
  }

  lemma ScanSnoc(logs: seq<Log>, log: Log)
    ensures ScanLogs(logs + [log])
         == if Eligible(log) && log.key !in ScanLogs(logs) then ScanLogs(logs)[log.key := EventOf(log)] else ScanLogs(logs)
  {
    assert (logs + [log])[..|logs|] == logs;
  }

  function InsertLog(table: EventTable, log: Log, eventTime: int): EventTable {
    if Eligible(log) then InsertEvent(table, log.key, EventRow(eventTime, EventOf(log))) else table
  }

  lemma InsertLogEvents(table: EventTable, log: Log, eventTime: int)
    ensures Events(InsertLog(table, log, eventTime))
         == if Eligible(log) && log.key !in Events(table) then Events(table)[log.key := EventOf(log)] else Events(table)
  {
  }

  /** Inserting the log at position `seen` of a list whose first `p` logs were met before, seen <= p. */
  lemma InsertKeepsPrefix(all: seq<Log>, p: nat, seen: nat, table: EventTable, eventTime: int) returns (p': nat)
    requires seen <= p <= |all| && seen < |all|
    requires Events(table) == ScanLogs(all[..p])
    ensures p <= p' <= |all| && seen < p'
    ensures Events(InsertLog(table, all[seen], eventTime)) == ScanLogs(all[..p'])
  {
    var log := all[seen];
    InsertLogEvents(table, log, eventTime);
    if seen < p {
      p' := p;
      assert all[..p][seen] == log;
      if Eligible(log) { ScanHasKey(all[..p], seen); }
    } else {
      p' := p + 1;
      assert all[..p + 1] == all[..p] + [log];
      ScanSnoc(all[..p], log);
    }
  }

  /** Extending the horizon keeps the part already met. */
  lemma ChainHorizon(chain: int -> seq<Log>, cursor: int, to: int, hi: int, p: nat) returns (hi': int)
    requires 0 <= cursor <= hi && cursor <= to
    requires p <= |ChainLogs(chain, 1, hi)|
    ensures hi <= hi' && to <= hi'
    ensures p <= |ChainLogs(chain, 1, hi')| && ChainLogs(chain, 1, hi')[..p] == ChainLogs(chain, 1, hi)[..p]
    ensures var all, start, logs := ChainLogs(chain, 1, hi'), |ChainLogs(chain, 1, cursor)|, ChainLogs(chain, cursor + 1, to);
      && start + |logs| == |ChainLogs(chain, 1, to)| <= |all|
      && forall i :: 0 <= i < |logs| ==> all[start + i] == logs[i]
  {
    hi' := if hi < to then to else hi;
    ChainSplit(chain, hi, hi');
    ChainSplit(chain, to, hi');
    ChainSplit(chain, cursor, to);
  }

  /** Inserting one more chain log, met before or not, keeps the table a single scan. */
  lemma InsertKeepsScan(chain: int -> seq<Log>, s: State, query: Query, next: nat, eventTime: int, hi: int, p: nat)
    returns (hi': int, p': nat)
    requires StageOk(s) && CursorOk(s) && ScanInv(chain, s, hi, p)
    requires s.stage == Inserting(query, next) && next < |query.logs|
    ensures ScanInv(chain, Insert(s, query, next, true, eventTime), hi', p')
  {
    hide ChainLogs, ScanLogs, Events, Tiles;
    hi' := ChainHorizon(chain, s.cursor, query.to, hi, p);
    var seen := |ChainLogs(chain, 1, s.cursor)| + next;
    p' := InsertKeepsPrefix(ChainLogs(chain, 1, hi'), p, seen, s.rows, eventTime);
    assert Insert(s, query, next, true, eventTime).rows == InsertLog(s.rows, query.logs[next], eventTime);
  }

  lemma StepKeepsScan(chain: int -> seq<Log>, s: State, a: Action, hi: int, p: nat) returns (hi': int, p': nat)
    requires Safe(s) && ScanInv(chain, s, hi, p) && Faithful(chain, s, a)
    ensures ScanInv(chain, Step(s, a), hi', p')
  {
    hide ChainLogs, ScanLogs, Events, Tiles, RowsOk;
    hi', p' := hi, p;
    match (a, s.stage)
    case (InsertNext(ok, eventTime), Inserting(query, next)) =>
      if next < |query.logs| { hi', p' := InsertKeepsScan(chain, s, query, next, eventTime, hi, p); }
    case (StoreCursor(ok), Inserting(query, next)) =>
      hi' := ChainHorizon(chain, s.cursor, query.to, hi, p);
    case _ =>
  }

  lemma {:induction false} FaithfulRunScans(chain: int -> seq<Log>, sched: seq<Action>) returns (hi: int, p: nat)
    requires FaithfulRun(chain, sched)
    ensures ScanInv(chain, Exec(INITIAL, sched), hi, p)
  {
    if |sched| == 0 {
      hi, p := 0, 0;
    } else {
      var front := sched[..|sched| - 1];
      assert forall k :: 0 <= k < |front| ==> front[..k] == sched[..k];
      hi, p := FaithfulRunScans(chain, front);
      AlwaysSafe(front);
      hi, p := StepKeepsScan(chain, Exec(INITIAL, front), sched[|sched| - 1], hi, p);
    }
  }

  lemma LaterRow(events: map<EventKey, Event>, key: EventKey, event: Event, b: int)
    requires event.blockNumber > b
    ensures key !in events ==> UpTo(events[key := event], b) == UpTo(events, b)
  {
  }

  /** Logs of later blocks add rows of later blocks only. */
  lemma {:induction false} LaterBlocksAddNothing(early: seq<Log>, late: seq<Log>, b: int)
    requires forall i :: 0 <= i < |early| ==> early[i].blockNumber <= b
    requires forall i :: 0 <= i < |late| ==> late[i].blockNumber > b
    ensures UpTo(ScanLogs(early + late), b) == ScanLogs(early)
    decreases |late|
  {
    if |late| == 0 {
      assert early + late == early;
      ScanBlocks(early, b);
    } else {
      hide ScanLogs;
      var front, last := late[..|late| - 1], late[|late| - 1];
      if Eligible(last) { LaterRow(ScanLogs(early + front), last.key, EventOf(last), b); }
      hide UpTo, EventOf;
      LaterBlocksAddNothing(early, front, b);
      ScanSnoc(early + front, last);
      assert early + late == (early + front) + [last];
    }
  }

  lemma {:induction false} ScanBlocks(logs: seq<Log>, b: int)
    requires forall i :: 0 <= i < |logs| ==> logs[i].blockNumber <= b
    ensures forall key :: key in ScanLogs(logs) ==> ScanLogs(logs)[key].blockNumber <= b
  {
    if |logs| > 0 { ScanBlocks(logs[..|logs| - 1], b); }
  }

  lemma ScanUpTo(chain: int -> seq<Log>, cursor: int, hi: int, p: nat)
    requires ChainOk(chain) && 0 <= cursor <= hi
    requires |ChainLogs(chain, 1, cursor)| <= p <= |ChainLogs(chain, 1, hi)|
    ensures UpTo(ScanLogs(ChainLogs(chain, 1, hi)[..p]), cursor) == ScanLogs(ChainLogs(chain, 1, cursor))
  {
    ChainSplit(chain, cursor, hi);
    var early, rest := ChainLogs(chain, 1, cursor), ChainLogs(chain, cursor + 1, hi);
    var late := rest[..p - |early|];
    assert ChainLogs(chain, 1, hi)[..p] == early + late;
    ChainBlocks(chain, 1, cursor);
    ChainBlocks(chain, cursor + 1, hi);
    LaterBlocksAddNothing(early, late, cursor);
  }

  /**
   * When finalised logs do not change and inserts succeed, then at every moment the rows of blocks
   * 1..cursor are exactly those of one single scan of 1..cursor, however the ranges were cut,
   * repeated or interrupted.
   */
  lemma TableIsSingleScan(chain: int -> seq<Log>, sched: seq<Action>)
    requires ChainOk(chain) && FaithfulRun(chain, sched)
    ensures var s := Exec(INITIAL, sched);
      UpTo(Events(s.rows), s.cursor) == ScanLogs(ChainLogs(chain, 1, s.cursor))
  {
    AlwaysSafe(sched);
    var hi, p := FaithfulRunScans(chain, sched);
    ScanUpTo(chain, Exec(INITIAL, sched).cursor, hi, p);
  }

  lemma {:induction false} HonestQueries(chain: int -> seq<Log>, sched: seq<Action>)
    requires HonestRun(chain, sched)
    ensures forall q :: q in Exec(INITIAL, sched).queries ==> q.logs == ChainLogs(chain, q.from, q.to)
  {
    if |sched| > 0 {
      var front, last := sched[..|sched| - 1], sched[|sched| - 1];
      assert forall k :: 0 <= k < |front| ==> front[..k] == sched[..k] && front[k] == sched[k];
      HonestQueries(chain, front);
      HonestStep(chain, Exec(INITIAL, front), last);
    }
  }

  lemma HonestStep(chain: int -> seq<Log>, s: State, a: Action)
    requires forall q :: q in s.queries ==> q.logs == ChainLogs(chain, q.from, q.to)
    requires Honest(chain, s, a)
    ensures forall q :: q in Step(s, a).queries ==> q.logs == ChainLogs(chain, q.from, q.to)
  {
  }

  lemma {:induction false} BlockWithinRange(chain: int -> seq<Log>, from: int, to: int, b: int, i: nat)
    requires from <= b <= to && i < |chain(b)|
    ensures exists j :: 0 <= j < |ChainLogs(chain, from, to)| && ChainLogs(chain, from, to)[j] == chain(b)[i]
    decreases (to - b)
  {
    var all, front := ChainLogs(chain, from, to), ChainLogs(chain, from, to - 1);
    if b == to {
      assert all[|front| + i] == chain(b)[i];
    } else {
      BlockWithinRange(chain, from, to - 1, b, i);
      var j :| 0 <= j < |front| && front[j] == chain(b)[i];
      assert all[j] == front[j];
    }
  }

  /** Inserts may fail: then the only chain events up to the cursor without a row are the failed ones. */
  lemma OnlyFailedInsertsMissing(chain: int -> seq<Log>, sched: seq<Action>, b: int, i: nat)
    requires HonestRun(chain, sched)
    requires 1 <= b <= Exec(INITIAL, sched).cursor
    requires i < |chain(b)| && |chain(b)[i].topics| >= 2
    ensures chain(b)[i].key in Exec(INITIAL, sched).rows || chain(b)[i].key in Exec(INITIAL, sched).lost
  {
    var q := CursorMeansScanned(sched, b);
    HonestQueries(chain, sched);
    BlockWithinRange(chain, q.from, q.to, b, i);
    var j :| 0 <= j < |q.logs| && q.logs[j] == chain(b)[i];
    assert q.logs[j] == chain(b)[i];
  }

  /** On a chain no two logs share transaction hash and log index. */
  ghost predicate DistinctLogs(chain: int -> seq<Log>) {
    forall b, i, c, j :: 0 <= i < |chain(b)| && 0 <= j < |chain(c)| && chain(b)[i].key == chain(c)[j].key ==> b == c && i == j
  }

  lemma {:induction false} ChainMember(chain: int -> seq<Log>, from: int, to: int, j: nat) returns (b: int, i: nat)
    requires j < |ChainLogs(chain, from, to)|
    ensures from <= b <= to && i < |chain(b)| && chain(b)[i] == ChainLogs(chain, from, to)[j]
    decreases (to - from + 1)
  {
    var front := ChainLogs(chain, from, to - 1);
    if j < |front| {
      b, i := ChainMember(chain, from, to - 1, j);
    } else {
      b, i := to, j - |front|;
    }
  }

  /**
   * A stored row tells its log: that has an operator topic, and block, operator and quorum of the row
   * are the log's block, the first 8 bytes of its topic 1, and byte 31 of its data, or 0 if that is short.
   */
  lemma RowTellsItsLog(chain: int -> seq<Log>, sched: seq<Action>, b: int, i: nat)
    requires HonestRun(chain, sched) && DistinctLogs(chain) && i < |chain(b)|
    ensures var log, rows := chain(b)[i], Exec(INITIAL, sched).rows;
      log.key in rows ==>
        && |log.topics| >= 2
        && rows[log.key].event.blockNumber == log.blockNumber
        && rows[log.key].event.operatorId == Prefix(log.topics[1])
        && rows[log.key].event.quorumNumber == if |log.data| >= 32 then log.data[31] else 0
  {
    var s, log := Exec(INITIAL, sched), chain(b)[i];
    if log.key in s.rows {
      AlwaysSafe(sched);
      HonestQueries(chain, sched);
      hide Exec, ChainLogs, HonestRun;
      assert Justified(s, log.key);
      var q, k :| 0 <= q < |s.queries| && 0 <= k < |s.queries[q].logs|
        && Eligible(s.queries[q].logs[k]) && s.queries[q].logs[k].key == log.key
        && s.rows[log.key].event == EventOf(s.queries[q].logs[k]);
      var c, j := ChainMember(chain, s.queries[q].from, s.queries[q].to, k);
      assert c == b && j == i;
    }
  }

  lemma FaithfulStep(chain: int -> seq<Log>, s: State, a: Action)
    requires Faithful(chain, s, a)
    ensures Honest(chain, s, a) && Step(s, a).lost == s.lost
  {
  }

  lemma FaithfulIsHonest(chain: int -> seq<Log>, sched: seq<Action>)
    requires FaithfulRun(chain, sched)
    ensures HonestRun(chain, sched)
  {
    hide Honest, Exec;
    forall k | 0 <= k < |sched| ensures Honest(chain, Exec(INITIAL, sched[..k]), sched[k]) {
      FaithfulStep(chain, Exec(INITIAL, sched[..k]), sched[k]);
    }
  }

  lemma FaithfulFront(chain: int -> seq<Log>, sched: seq<Action>)
    requires FaithfulRun(chain, sched) && |sched| > 0
    ensures var n := |sched| - 1;
      FaithfulRun(chain, sched[..n]) && Faithful(chain, Exec(INITIAL, sched[..n]), sched[n])
  {
    hide Faithful, Exec;
    var front := sched[..|sched| - 1];
    assert forall k :: 0 <= k < |front| ==> front[..k] == sched[..k] && front[k] == sched[k];
  }

  lemma {:induction false} FaithfulLosesNothing(chain: int -> seq<Log>, sched: seq<Action>)
    requires FaithfulRun(chain, sched)
    ensures Exec(INITIAL, sched).lost == {}
  {
    if |sched| > 0 {
      hide FaithfulRun, Faithful, Step;
      var n := |sched| - 1;
      FaithfulFront(chain, sched);
      FaithfulLosesNothing(chain, sched[..n]);
      FaithfulStep(chain, Exec(INITIAL, sched[..n]), sched[n]);
    }
  }

  /**
   * With unchanging finalised logs and successful inserts, the logs of blocks 1..cursor that have an
   * operator topic are exactly those with a row, and each row tells its log.
   */
  lemma EveryEventHasItsRow(chain: int -> seq<Log>, sched: seq<Action>, b: int, i: nat)
    requires FaithfulRun(chain, sched) && DistinctLogs(chain)
    requires 1 <= b <= Exec(INITIAL, sched).cursor && i < |chain(b)|
    ensures var log, rows := chain(b)[i], Exec(INITIAL, sched).rows;
      && (log.key in rows <==> |log.topics| >= 2)
      && (log.key in rows ==>
            && rows[log.key].event.blockNumber == log.blockNumber
            && rows[log.key].event.operatorId == Prefix(log.topics[1])
            && rows[log.key].event.quorumNumber == if |log.data| >= 32 then log.data[31] else 0)
  {
    hide Exec, FaithfulRun, HonestRun, DistinctLogs;
    FaithfulIsHonest(chain, sched);
    FaithfulLosesNothing(chain, sched);
    RowTellsItsLog(chain, sched, b, i);
    if |chain(b)[i].topics| >= 2 { OnlyFailedInsertsMissing(chain, sched, b, i); }
  }

  // ---------------------------------------------------------------- catching up

  /** The cursor after a poll in which every call succeeds. */
  function PollTarget(cursor: int, safeHead: int): int {
    if safeHead <= cursor then cursor else RangeEnd(cursor, safeHead)
  }

  /** The cursor after successful polls at the given safe heads. */
  function AfterPolls(cursor: int, safeHeads: seq<int>): int {
    if |safeHeads| == 0 then cursor
    else PollTarget(AfterPolls(cursor, safeHeads[..|safeHeads| - 1]), safeHeads[|safeHeads| - 1])
  }

  /** Against a fixed safe head every poll gains 10001 blocks until the head is reached. */
  lemma {:induction false} FixedHeadProgress(cursor: int, safeHead: int, safeHeads: seq<int>)
    requires cursor <= safeHead
    requires forall i :: 0 <= i < |safeHeads| ==> safeHeads[i] == safeHead
    ensures AfterPolls(cursor, safeHeads) == Min(safeHead, cursor + 10001 * |safeHeads|)
  {
    if |safeHeads| > 0 { FixedHeadProgress(cursor, safeHead, safeHeads[..|safeHeads| - 1]); }
  }

  /** How far the cursor is behind when poll `i` begins. */
  function Lag(cursor: int, safeHeads: seq<int>, i: nat): int
    requires i < |safeHeads|
  {
    safeHeads[i] - AfterPolls(cursor, safeHeads[..i])
  }

  ghost predicate CaughtUp(cursor: int, safeHeads: seq<int>, i: nat) {
    i < |safeHeads| && AfterPolls(cursor, safeHeads[..i + 1]) >= safeHeads[i]
  }

  ghost predicate SlowHead(safeHeads: seq<int>) {
    forall i :: 0 <= i < |safeHeads| - 1 ==> safeHeads[i + 1] <= safeHeads[i] + 10000
  }

  /** If the head grows by at most 10000 blocks per poll, the lag falls until the indexer catches up. */
  lemma LagFalls(cursor: int, safeHeads: seq<int>, i: nat)
    requires SlowHead(safeHeads) && i + 1 < |safeHeads|
    requires !CaughtUp(cursor, safeHeads, i)
    ensures Lag(cursor, safeHeads, i + 1) < Lag(cursor, safeHeads, i)
  {
    assert safeHeads[..i + 1][..i] == safeHeads[..i];
  }

  /** So it does catch up, after at most as many polls as it was blocks behind. */
  lemma {:induction false} CatchesUp(cursor: int, safeHeads: seq<int>, i: nat) returns (j: nat)
    requires SlowHead(safeHeads) && i < |safeHeads|
    requires i + Lag(cursor, safeHeads, i) < |safeHeads|
    ensures i <= j < |safeHeads| && CaughtUp(cursor, safeHeads, j)
    decreases |safeHeads| - i
  {
    if CaughtUp(cursor, safeHeads, i) {
      j := i;
    } else {
      assert safeHeads[..i + 1][..i] == safeHeads[..i];
      LagFalls(cursor, safeHeads, i);
      j := CatchesUp(cursor, safeHeads, i + 1);
    }
  }
}
