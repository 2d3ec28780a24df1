/** The ejection indexer worker: each poll is a stretch of a run of the machine in EjectionScan. */
module EjectionIndexer {
  import opened Common
  import opened Operators
  import opened EjectionScan
  import opened Database

  const EJECTION_INDEXER := "ejection"

  function StoredCursor(cursors: map<string, int>): int {
    if EJECTION_INDEXER in cursors then cursors[EJECTION_INDEXER] else 0
  }

  /**
   * What the world answers during one poll: whether the cursor can be read, the chain head and the
   * logs (None on error), which inserts take effect and with what event time, how many loop
   * iterations the process lives through (it dies before the next external call), and whether
   * storing the cursor takes effect.
   */
  datatype World = World(
    cursorReadable: bool,
    head: Option<Uint64>,
    logs: Option<seq<Log>>,
    insertOk: nat -> bool,
    eventTime: nat -> int,
    lifetime: nat,
    storeOk: bool)
  {
    ghost predicate DiesIn(n: nat) {
      lifetime <= n
    }
  }

  function Inserts(w: World, n: nat): seq<Action> {
    if n == 0 then [] else Inserts(w, n - 1) + [InsertNext(w.insertOk(n - 1), w.eventTime(n - 1))]
  }

  /** The steps of a poll that starts from the given cursor. */
  ghost function PollActions(w: World, cursor: int): seq<Action> {
    if !w.cursorReadable || w.head == None then []
    else
      [ReadCursor, ReadHead(w.head.value)] + if SafeHead(w.head.value) <= cursor then [] else RangeActions(w)
  }

  ghost function RangeActions(w: World): seq<Action> {
    if w.logs == None then [Abort]
    else [FilterLogs(w.logs.value)] + LoopActions(w, |w.logs.value|) + EndActions(w, |w.logs.value|)
  }

  ghost function LoopActions(w: World, n: nat): seq<Action> {
    if w.DiesIn(n) then Inserts(w, w.lifetime) + [Abort] else Inserts(w, n)
  }

  ghost function EndActions(w: World, n: nat): seq<Action> {
    if w.DiesIn(n) then [] else [StoreCursor(w.storeOk)]
  }

  ghost predicate StoresRange(w: World) {
    w.logs.Some? && !w.DiesIn(|w.logs.value|) && w.storeOk
  }

  /** Every call succeeds, the process lives, and there was something to do. */
  ghost predicate Completes(w: World, cursor: int) {
    w.cursorReadable && w.head.Some? && SafeHead(w.head.value) > cursor && StoresRange(w)
  }

  // ---------------------------------------------------------------- runs of polls

  lemma InsertEffect(s: State, query: Query, next: nat, ok: bool, eventTime: int)
    requires s.stage == Inserting(query, next) && next < |query.logs|
    ensures var t := Step(s, InsertNext(ok, eventTime));
      t.stage == Inserting(query, next + 1) && t.cursor == s.cursor
  {
  }

  lemma {:induction false} InsertsEffect(s: State, w: World, query: Query, n: nat)
    requires s.stage == Inserting(query, 0) && n <= |query.logs|
    ensures Exec(s, Inserts(w, n)).stage == Inserting(query, n)
    ensures Exec(s, Inserts(w, n)).cursor == s.cursor
  {
    hide Exec, Step;
    if n == 0 {
      ExecNone(s);
    } else {
      InsertsEffect(s, w, query, n - 1);
      ExecSnoc(s, Inserts(w, n - 1), InsertNext(w.insertOk(n - 1), w.eventTime(n - 1)));
      InsertEffect(Exec(s, Inserts(w, n - 1)), query, n - 1, w.insertOk(n - 1), w.eventTime(n - 1));
    }
  }

  /** The loop of a poll ends ready to store the cursor, unless the process dies in it. */
  lemma LoopEffect(s: State, w: World, query: Query)
    requires s.stage == Inserting(query, 0)
    ensures var t := Exec(s, LoopActions(w, |query.logs|));
      t.cursor == s.cursor && t.stage == if w.DiesIn(|query.logs|) then Idle else Inserting(query, |query.logs|)
  {
    if w.DiesIn(|query.logs|) {
      InsertsEffect(s, w, query, w.lifetime);
      ExecSnoc(s, Inserts(w, w.lifetime), Abort);
    } else {
      InsertsEffect(s, w, query, |query.logs|);
    }
  }

  lemma RangeEffect(s: State, w: World, from: int, to: int)
    requires s.stage == HaveRange(from, to)
    ensures var t := Exec(s, RangeActions(w));
      t.stage == Idle && t.cursor == if StoresRange(w) then to else s.cursor
  {
    hide Exec;
    if w.logs == None {
      ghost var t := One(s, Abort);
    } else {
      var logs := w.logs.value;
      var begun := One(s, FilterLogs(logs));
      ghost var looped := Exec(begun, LoopActions(w, |logs|));
      ExecConcat(s, [FilterLogs(logs)], LoopActions(w, |logs|));
      ExecConcat(s, [FilterLogs(logs)] + LoopActions(w, |logs|), EndActions(w, |logs|));
      LoopEffect(begun, w, Query(from, to, logs));
      ExecNone(looped);
      if !w.DiesIn(|logs|) { ghost var t := One(looped, StoreCursor(w.storeOk)); }
    }
  }

  /** What one poll does to the cursor. */
  lemma PollEffect(s: State, w: World)
    requires s.stage == Idle
    ensures var t := Exec(s, PollActions(w, s.cursor));
      && t.stage == Idle
      && t.cursor ==
           if w.cursorReadable && w.head.Some? && SafeHead(w.head.value) > s.cursor
              && w.logs.Some? && |w.logs.value| < w.lifetime && w.storeOk
           then Min(SafeHead(w.head.value), s.cursor + 10001)
           else s.cursor
  {
    ExecNone(s);
    hide Exec;
    if w.cursorReadable && w.head.Some? {
      var head := w.head.value;
      var read := One(s, ReadCursor);
      ghost var planned := One(read, ReadHead(head));
      ExecConcat(s, [ReadCursor], [ReadHead(head)]);
      assert [ReadCursor] + [ReadHead(head)] == [ReadCursor, ReadHead(head)];
      if SafeHead(head) > s.cursor {
        ExecConcat(s, [ReadCursor, ReadHead(head)], RangeActions(w));
        RangeEffect(planned, w, s.cursor + 1, RangeEnd(s.cursor, SafeHead(head)));
      } else {
        assert PollActions(w, s.cursor) == [ReadCursor, ReadHead(head)];
      }
    }
  }

  /** A step written as a run of one action. */
  ghost function One(s: State, a: Action): (t: State)
    ensures t == Step(s, a) == Exec(s, [a])
  {
    ExecSnoc(s, [], a);
    assert [] + [a] == [a];
    Step(s, a)
  }

  /** The steps of consecutive polls, successful or not, from the state `s`. */
  ghost function RunActions(s: State, ws: seq<World>): seq<Action> {
    if |ws| == 0 then []
    else
      var before := RunActions(s, ws[..|ws| - 1]);
      before + PollActions(ws[|ws| - 1], Exec(s, before).cursor)
  }

  ghost function CursorAfter(s: State, ws: seq<World>): int {
    Exec(s, RunActions(s, ws)).cursor
  }

  /** The safe heads of the polls that complete, in order. */
  ghost function CompletedHeads(s: State, ws: seq<World>): seq<int> {
    if |ws| == 0 then []
    else
      var front, last := ws[..|ws| - 1], ws[|ws| - 1];
      if Completes(last, CursorAfter(s, front)) then CompletedHeads(s, front) + [SafeHead(last.head.value)]
      else CompletedHeads(s, front)
  }

  lemma AfterPollsSnoc(cursor: int, safeHeads: seq<int>, safeHead: int)
    ensures AfterPolls(cursor, safeHeads + [safeHead]) == PollTarget(AfterPolls(cursor, safeHeads), safeHead)
  {
    assert (safeHeads + [safeHead])[..|safeHeads|] == safeHeads;
  }

  lemma RunSnoc(s: State, ws: seq<World>)
    requires |ws| > 0 && Exec(s, RunActions(s, ws[..|ws| - 1])).stage == Idle
    ensures Exec(s, RunActions(s, ws)).stage == Idle
    ensures var cursor, w := CursorAfter(s, ws[..|ws| - 1]), ws[|ws| - 1];
      CursorAfter(s, ws) == if Completes(w, cursor) then PollTarget(cursor, SafeHead(w.head.value)) else cursor
  {
    hide Exec;
    var before, w := RunActions(s, ws[..|ws| - 1]), ws[|ws| - 1];
    var t := Exec(s, before);
    ExecConcat(s, before, PollActions(w, t.cursor));
    PollEffect(t, w);
  }

  lemma RunActionsNone(s: State, ws: seq<World>)
    ensures RunActions(s, ws[..0]) == [] && Exec(s, RunActions(s, ws[..0])) == s
  {
  }

  lemma RunActionsSnoc(s: State, ws: seq<World>, k: nat)
    requires k < |ws|
    ensures RunActions(s, ws[..k + 1]) == RunActions(s, ws[..k]) + PollActions(ws[k], CursorAfter(s, ws[..k]))
  {
    assert ws[..k + 1][..k] == ws[..k];
  }

  /** Over any run of polls the cursor is moved by the completing polls alone. */
  lemma {:induction false} OnlyCompletedPollsCount(s: State, ws: seq<World>)
    requires s.stage == Idle
    ensures Exec(s, RunActions(s, ws)).stage == Idle
    ensures CursorAfter(s, ws) == AfterPolls(s.cursor, CompletedHeads(s, ws))
  {
    if |ws| > 0 {
      hide Exec;
      var front, w := ws[..|ws| - 1], ws[|ws| - 1];
      OnlyCompletedPollsCount(s, front);
      RunSnoc(s, ws);
      if Completes(w, CursorAfter(s, front)) {
        AfterPollsSnoc(s.cursor, CompletedHeads(s, front), SafeHead(w.head.value));
      }
    }
  }

  ghost predicate AllSee(safeHeads: seq<int>, safeHead: int) {
    forall i :: 0 <= i < |safeHeads| ==> safeHeads[i] == safeHead
  }

  /** If all completing polls see the safe head `safeHead`, each gains 10001 blocks until it is reached. */
  lemma RunAgainstFixedHead(s: State, ws: seq<World>, safeHead: int)
    requires s.stage == Idle && s.cursor <= safeHead && AllSee(CompletedHeads(s, ws), safeHead)
    ensures CursorAfter(s, ws) == Min(safeHead, s.cursor + 10001 * |CompletedHeads(s, ws)|)
  {
    hide Exec, CompletedHeads;
    OnlyCompletedPollsCount(s, ws);
    FixedHeadProgress(s.cursor, safeHead, CompletedHeads(s, ws));
  }

  /** Polls needed from `cursor` to `safeHead`: the quotient by 10001, rounded up. */
  function PollsNeeded(cursor: int, safeHead: int): int {
    (safeHead - cursor + 10000) / 10001
  }

  lemma {:induction false} NoPollTooMany(s: State, ws: seq<World>, safeHead: int)
    requires s.stage == Idle && s.cursor <= safeHead && AllSee(CompletedHeads(s, ws), safeHead)
    ensures |CompletedHeads(s, ws)| <= PollsNeeded(s.cursor, safeHead)
  {
    if |ws| > 0 {
      hide Exec;
      var front, w := ws[..|ws| - 1], ws[|ws| - 1];
      var before, after := CompletedHeads(s, front), CompletedHeads(s, ws);
      assert forall i :: 0 <= i < |before| ==> before[i] == after[i];
      NoPollTooMany(s, front, safeHead);
      RunAgainstFixedHead(s, front, safeHead);
      if Completes(w, CursorAfter(s, front)) { assert after[|before|] == safeHead; }
    }
  }

  /**
   * However many polls fail or die in between, the run has caught up with a fixed safe head exactly
   * when ceil((safeHead - cursor) / 10001) polls have completed, and no further poll completes.
   */
  lemma CaughtUpIff(s: State, ws: seq<World>, safeHead: int)
    requires s.stage == Idle && s.cursor <= safeHead && AllSee(CompletedHeads(s, ws), safeHead)
    ensures CursorAfter(s, ws) == safeHead <==> |CompletedHeads(s, ws)| == PollsNeeded(s.cursor, safeHead)
    ensures |CompletedHeads(s, ws)| <= PollsNeeded(s.cursor, safeHead)
  {
    hide Exec, CompletedHeads;
    NoPollTooMany(s, ws, safeHead);
    RunAgainstFixedHead(s, ws, safeHead);
  }

  /** Every call of the poll succeeds and the process lives. */
  ghost predicate Healthy(w: World) {
    w.cursorReadable && w.head.Some? && StoresRange(w)
  }

  ghost predicate AllHealthy(ws: seq<World>) {
    forall i :: 0 <= i < |ws| ==> Healthy(ws[i])
  }

  function SafeHeads(ws: seq<World>): (heads: seq<int>)
    requires forall i :: 0 <= i < |ws| ==> ws[i].head.Some?
    ensures |heads| == |ws|
    ensures forall i :: 0 <= i < |ws| ==> heads[i] == SafeHead(ws[i].head.value)
  {
    seq(|ws|, i requires 0 <= i < |ws| && ws[i].head.Some? => SafeHead(ws[i].head.value))
  }

  lemma SafeHeadsSnoc(ws: seq<World>)
    requires |ws| > 0 && forall i :: 0 <= i < |ws| ==> ws[i].head.Some?
    ensures SafeHeads(ws) == SafeHeads(ws[..|ws| - 1]) + [SafeHead(ws[|ws| - 1].head.value)]
  {
    hide SafeHead;
  }

  lemma {:induction false} HealthyRun(s: State, ws: seq<World>)
    requires s.stage == Idle && AllHealthy(ws)
    ensures CursorAfter(s, ws) == AfterPolls(s.cursor, SafeHeads(ws))
    ensures Exec(s, RunActions(s, ws)).stage == Idle
  {
    if |ws| > 0 {
      hide Exec, RunActions, AfterPolls, SafeHeads;
      var front, w := ws[..|ws| - 1], ws[|ws| - 1];
      HealthyRun(s, front);
      RunSnoc(s, ws);
      SafeHeadsSnoc(ws);
      AfterPollsSnoc(s.cursor, SafeHeads(front), SafeHead(w.head.value));
    }
  }

  lemma HealthyPrefix(s: State, ws: seq<World>, k: nat)
    requires s.stage == Idle && AllHealthy(ws) && k <= |ws|
    ensures CursorAfter(s, ws[..k]) == AfterPolls(s.cursor, SafeHeads(ws)[..k])
  {
    HealthyRun(s, ws[..k]);
    assert SafeHeads(ws[..k]) == SafeHeads(ws)[..k];
  }

  /** How far the cursor is behind the safe head that poll `i` sees. */
  ghost function Behind(s: State, ws: seq<World>, i: nat): int
    requires i < |ws| && ws[i].head.Some?
  {
    SafeHead(ws[i].head.value) - CursorAfter(s, ws[..i])
  }

  /** In a healthy run against a head that grows by at most 10000 blocks per poll, a poll that does not catch up leaves a smaller lag. */
  lemma RunLagFalls(s: State, ws: seq<World>, i: nat)
    requires s.stage == Idle && AllHealthy(ws) && SlowHead(SafeHeads(ws)) && i + 1 < |ws|
    requires CursorAfter(s, ws[..i + 1]) < SafeHead(ws[i].head.value)
    ensures Behind(s, ws, i + 1) < Behind(s, ws, i)
  {
    hide CursorAfter, AfterPolls, SafeHeads, SafeHead, SlowHead;
    HealthyPrefix(s, ws, i);
    HealthyPrefix(s, ws, i + 1);
    LagFalls(s.cursor, SafeHeads(ws), i);
  }

  /** Such a run catches up after at most as many polls as it was blocks behind. */
  lemma RunCatchesUp(s: State, ws: seq<World>) returns (j: nat)
    requires s.stage == Idle && AllHealthy(ws) && SlowHead(SafeHeads(ws)) && |ws| > 0
    requires Behind(s, ws, 0) < |ws|
    ensures j < |ws| && CursorAfter(s, ws[..j + 1]) >= SafeHead(ws[j].head.value)
  {
    hide CursorAfter, AfterPolls, SafeHeads, SafeHead, SlowHead;
    HealthyPrefix(s, ws, 0);
    j := CatchesUp(s.cursor, SafeHeads(ws), 0);
    HealthyPrefix(s, ws, j + 1);
  }

  class EjectionIndexer {
    const db: Database

    /** Everything that happened since the tables were empty, and the state of the machine by now. */
    ghost var past: seq<Action>
    ghost var now: State

    /** The tables hold what the machine says. */
    ghost predicate Tracks()
      reads this, db
    {
      now.cursor == StoredCursor(db.indexerCursors) && now.rows == db.ejectionEvents
    }

    /** No poll is under way, and the tables are those that the past run of the machine leaves. */
    ghost predicate Valid()
      reads this, db
    {
      Tracks() && now.stage == Idle && now == Exec(INITIAL, past)
    }

    constructor (db: Database)
      requires db.ejectionEvents == map[] && db.indexerCursors == map[]
      ensures Valid() && this.db == db && past == []
    {
      this.db := db;
      past, now := [], INITIAL;
    }

    /** One poll: it performs exactly the steps that the world allows. */
    method Poll(w: World)
      requires Valid()
      modifies this`past, this`now, db`ejectionEvents, db`indexerCursors
      ensures Valid()
      ensures past == old(past) + PollActions(w, old(now.cursor))
      ensures StoredCursor(db.indexerCursors) ==
        if w.cursorReadable && w.head.Some? && SafeHead(w.head.value) > old(now.cursor)
           && w.logs.Some? && |w.logs.value| < w.lifetime && w.storeOk
        then Min(SafeHead(w.head.value), old(now.cursor) + 10001)
        else old(now.cursor)
    {
      ExecConcat(INITIAL, past, PollActions(w, now.cursor));
      ghost var actions := PollActions(w, now.cursor);
      PollOnce(w);
      past := past + actions;
    }

    /**
     * Between polls: if finalised logs never changed and no insert failed, the stored rows of blocks up to
     * the stored cursor are those of one single scan.
     */
    lemma StoredRowsAreSingleScan(chain: int -> seq<Log>)
      requires Valid() && ChainOk(chain) && FaithfulRun(chain, past)
      ensures var cursor := StoredCursor(db.indexerCursors);
        UpTo(Events(db.ejectionEvents), cursor) == ScanLogs(ChainLogs(chain, 1, cursor))
    {
      TableIsSingleScan(chain, past);
    }

    /** Between polls: with successful inserts the logs up to the stored cursor are told by the stored rows. */
    lemma StoredRowsTellTheirLogs(chain: int -> seq<Log>, b: int, i: nat)
      requires Valid() && FaithfulRun(chain, past) && DistinctLogs(chain)
      requires 1 <= b <= StoredCursor(db.indexerCursors) && i < |chain(b)|
      ensures var log, rows := chain(b)[i], db.ejectionEvents;
        && (log.key in rows <==> |log.topics| >= 2)
        && (log.key in rows ==>
              && rows[log.key].event.blockNumber == log.blockNumber
              && rows[log.key].event.operatorId == Prefix(log.topics[1])
              && rows[log.key].event.quorumNumber == if |log.data| >= 32 then log.data[31] else 0)
    {
      EveryEventHasItsRow(chain, past, b, i);
    }

    /** Between polls: a chain event up to the stored cursor has no row only if its insert failed. */
    lemma StoredRowsMissOnlyFailedInserts(chain: int -> seq<Log>, b: int, i: nat)
      requires Valid() && HonestRun(chain, past)
      requires 1 <= b <= StoredCursor(db.indexerCursors)
      requires i < |chain(b)| && |chain(b)[i].topics| >= 2
      ensures chain(b)[i].key in db.ejectionEvents || chain(b)[i].key in now.lost
    {
      OnlyFailedInsertsMissing(chain, past, b, i);
    }

    /** Polls one after the other, whatever happens to each of them. */
    method Run(ws: seq<World>)
      requires Valid()
      modifies this`past, this`now, db`ejectionEvents, db`indexerCursors
      ensures Valid()
      ensures past == old(past) + RunActions(old(now), ws)
      ensures StoredCursor(db.indexerCursors) == CursorAfter(old(now), ws) == AfterPolls(old(now.cursor), CompletedHeads(old(now), ws))
    {
      hide Exec, AfterPolls, RunActions, PollActions, CompletedHeads, StoredCursor;
      ghost var start := now;
      var k := 0;
      RunActionsNone(start, ws);
      while k < |ws|
        invariant 0 <= k <= |ws| && Valid()
        invariant past == old(past) + RunActions(start, ws[..k])
        invariant now == Exec(start, RunActions(start, ws[..k]))
      {
        RunActionsSnoc(start, ws, k);
        Poll(ws[k]);
        ExecConcat(INITIAL, old(past), RunActions(start, ws[..k + 1]));
        k := k + 1;
      }
      assert ws[..k] == ws;
      OnlyCompletedPollsCount(start, ws);
    }

    method PollOnce(w: World)
      requires Tracks() && now.stage == Idle
      modifies this`now, db`ejectionEvents, db`indexerCursors
      ensures Tracks() && now.stage == Idle
      ensures now == Exec(old(now), PollActions(w, old(now.cursor)))
      ensures now.cursor
           == if Completes(w, old(now.cursor)) then PollTarget(old(now.cursor), SafeHead(w.head.value)) else old(now.cursor)
    {
      ExecNone(now);
      hide Exec;
      var cursor := db.GetIndexerCursor(EJECTION_INDEXER, w.cursorReadable);
      if cursor == None || w.head == None { return; }
      var range := PlanRange(cursor.value, w.head.value);
      if range == None {
        assert PollActions(w, cursor.value) == [ReadCursor, ReadHead(w.head.value)];
        return;
      }
      ExecConcat(old(now), [ReadCursor, ReadHead(w.head.value)], RangeActions(w));
      ScanRange(range.value.0, range.value.1, w);
    }

    /** The block range to query, or None when the safe head is not above the cursor. */
    method PlanRange(cursor: int, head: Uint64) returns (range: Option<(int, int)>)
      requires Tracks() && now.stage == Idle && cursor == now.cursor
      modifies this`now
      ensures Tracks() && now.cursor == old(now.cursor)
      ensures range == None <==> SafeHead(head) <= cursor
      ensures range == None ==> now.stage == Idle
      ensures range.Some? ==> now.stage == HaveRange(range.value.0, range.value.1)
      ensures range.Some? ==> range.value.1 == PollTarget(cursor, SafeHead(head))
      ensures now == Exec(old(now), [ReadCursor, ReadHead(head)])
    {
      ExecSnoc(now, [], ReadCursor);
      ExecSnoc(now, [ReadCursor], ReadHead(head));
      assert [] + [ReadCursor] == [ReadCursor] && [ReadCursor] + [ReadHead(head)] == [ReadCursor, ReadHead(head)];
      now := Step(Step(now, ReadCursor), ReadHead(head));
      var safeHead := SafeHead(head);
      if safeHead <= cursor { return None; }
      var fromBlock := cursor + 1;
      var toBlock := safeHead;
      if toBlock - fromBlock > MAX_BLOCK_RANGE {
        toBlock := fromBlock + MAX_BLOCK_RANGE;
      }
      return Some((fromBlock, toBlock));
    }

    /** The part of a poll that queries a range, inserts its events and stores the cursor. */
    method ScanRange(fromBlock: int, toBlock: int, w: World)
      requires Tracks() && now.stage == HaveRange(fromBlock, toBlock)
      modifies this`now, db`ejectionEvents, db`indexerCursors
      ensures Tracks() && now.stage == Idle
      ensures now == Exec(old(now), RangeActions(w))
      ensures now.cursor == if StoresRange(w) then toBlock else old(now.cursor)
    {
      hide Exec;
      if w.logs == None {
        now := One(now, Abort);
        return;
      }
      var logs := w.logs.value;
      now := One(now, FilterLogs(logs));
      ExecConcat(old(now), [FilterLogs(logs)], LoopActions(w, |logs|));
      ExecConcat(old(now), [FilterLogs(logs)] + LoopActions(w, |logs|), EndActions(w, |logs|));
      var finished := InsertEvents(Query(fromBlock, toBlock, logs), w);
      ExecNone(now);
      if finished {
        db.UpdateIndexerCursor(EJECTION_INDEXER, toBlock, w.storeOk);
        now := One(now, StoreCursor(w.storeOk));
      }
    }

    /** The inserts of a poll; `finished` is false when the process dies among them or right after. */
    method InsertEvents(query: Query, w: World) returns (finished: bool)
      requires Tracks() && now.stage == Inserting(query, 0)
      modifies this`now, db`ejectionEvents
      ensures Tracks() && now.cursor == old(now.cursor)
      ensures finished <==> !w.DiesIn(|query.logs|)
      ensures now.stage == if finished then Inserting(query, |query.logs|) else Idle
      ensures now == Exec(old(now), LoopActions(w, |query.logs|))
    {
      var k := InsertLoop(query, w);
      finished := k < w.lifetime;
      if !finished { Die(k, w, old(now)); }
    }

    /** The loop runs over all logs unless the process dies after `k` of them. */
    method InsertLoop(query: Query, w: World) returns (k: nat)
      requires now.rows == db.ejectionEvents && now.stage == Inserting(query, 0)
      modifies this`now, db`ejectionEvents
      ensures now.rows == db.ejectionEvents && now.cursor == old(now.cursor)
      ensures now.stage == Inserting(query, k)
      ensures now == Exec(old(now), Inserts(w, k))
      ensures k == if w.DiesIn(|query.logs|) then w.lifetime else |query.logs|
    {
      hide Exec;
      k := 0;
      ExecNone(now);
      assert Inserts(w, k) == [];
      hide Inserts;
      while k < |query.logs| && k < w.lifetime
        invariant k <= |query.logs| && k <= w.lifetime
        invariant now.rows == db.ejectionEvents && now.cursor == old(now.cursor)
        invariant now.stage == Inserting(query, k)
        invariant now == Exec(old(now), Inserts(w, k))
      {
        InsertKth(query.logs[k], k, w, old(now));
        k := k + 1;
      }
    }

    method InsertKth(log: Log, k: nat, w: World, ghost start: State)
      requires now.rows == db.ejectionEvents && now == Exec(start, Inserts(w, k))
      requires now.stage.Inserting? && now.stage.next == k < |now.stage.query.logs| && now.stage.query.logs[k] == log
      modifies this`now, db`ejectionEvents
      ensures now.rows == db.ejectionEvents && now == Exec(start, Inserts(w, k + 1))
      ensures now.cursor == old(now.cursor) && now.stage == Inserting(old(now).stage.query, k + 1)
    {
      hide Exec, Step;
      ExecSnoc(start, Inserts(w, k), InsertNext(w.insertOk(k), w.eventTime(k)));
      InsertOne(log, w.insertOk(k), w.eventTime(k));
    }

    ghost method Die(k: nat, w: World, start: State)
      requires now.rows == db.ejectionEvents && now == Exec(start, Inserts(w, k)) && now.stage.Inserting?
      modifies this`now
      ensures now.rows == db.ejectionEvents && now == Exec(start, Inserts(w, k) + [Abort])
      ensures now.cursor == old(now.cursor) && now.stage == Idle
    {
      ExecSnoc(start, Inserts(w, k), Abort);
      now := Step(now, Abort);
    }

    method InsertOne(log: Log, ok: bool, eventTime: int)
      requires now.rows == db.ejectionEvents && now.stage.Inserting?
      requires now.stage.next < |now.stage.query.logs| && now.stage.query.logs[now.stage.next] == log
      modifies this`now, db`ejectionEvents
      ensures now.rows == db.ejectionEvents && now.cursor == old(now.cursor)
      ensures now.stage == Inserting(old(now).stage.query, old(now).stage.next + 1)
      ensures now == Step(old(now), InsertNext(ok, eventTime))
    {
      if |log.topics| >= 2 {
        var operatorId := Prefix(log.topics[1]);
        var quorumNumber := 0;
        if |log.data| >= 32 {
          quorumNumber := log.data[31];
        }
        db.InsertEjectionEvent(log.key, EventRow(eventTime, Event(log.blockNumber, operatorId, quorumNumber)), ok);
      }
      now := Step(now, InsertNext(ok, eventTime));
    }
  }
}
