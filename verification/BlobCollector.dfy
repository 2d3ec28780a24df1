/** The blob collector's watermark over a newest-first feed. */
module BlobCollector {
  import opened Common
  import opened BlobTable
  import opened Database

  const FEED_LIMIT: nat := 100

  datatype FeedBlob = FeedBlob(blobKey: string, identity: BlobIdentity, payment: int)

  function Timestamp(b: FeedBlob): nat { b.identity.requestedAt }

  /** The feed entries newer than the watermark: everything before the first that is not. */
  function NewPart(feed: seq<FeedBlob>, watermark: nat): seq<FeedBlob> {
    if |feed| == 0 || Timestamp(feed[0]) <= watermark then [] else [feed[0]] + NewPart(feed[1..], watermark)
  }

  function NextWatermark(feed: seq<FeedBlob>, watermark: nat): nat {
    if |feed| > 0 && Timestamp(feed[0]) > watermark then Timestamp(feed[0]) else watermark
  }

  /** The table after upserting these blobs in order, `ok(k)` telling whether the k-th takes effect. */
  function Upserted(table: Blobs, blobs: seq<FeedBlob>, ok: nat -> bool): Blobs {
    if |blobs| == 0 then table
    else
      var n := |blobs| - 1;
      var front := Upserted(table, blobs[..n], ok);
      if ok(n) then Upsert(front, FromFeed(blobs[n].blobKey, blobs[n].identity, blobs[n].payment)) else front
  }

  /** The first `n` upserts that take effect. */
  ghost function Succeeded(ok: nat -> bool, n: nat): set<nat> {
    set i: nat | i < n && ok(i)
  }

  lemma SucceededSnoc(ok: nat -> bool, n: nat)
    ensures |Succeeded(ok, n + 1)| == |Succeeded(ok, n)| + if ok(n) then 1 else 0
    ensures |Succeeded(ok, 0)| == 0
  {
    assert Succeeded(ok, 0) == {};
    assert Succeeded(ok, n + 1) == if ok(n) then Succeeded(ok, n) + {n} else Succeeded(ok, n);
  }

  lemma UpsertedNone(table: Blobs, blobs: seq<FeedBlob>, ok: nat -> bool)
    ensures Upserted(table, blobs[..0], ok) == table
  {
  }

  lemma UpsertedSnoc(table: Blobs, blobs: seq<FeedBlob>, k: nat, ok: nat -> bool)
    requires k < |blobs|
    ensures var front := Upserted(table, blobs[..k], ok);
      Upserted(table, blobs[..k + 1], ok)
      == if ok(k) then Upsert(front, FromFeed(blobs[k].blobKey, blobs[k].identity, blobs[k].payment)) else front
  {
    assert blobs[..k + 1][..k] == blobs[..k];
  }

  lemma {:induction false} NewPartIsPrefix(feed: seq<FeedBlob>, watermark: nat, k: nat)
    requires k <= |feed|
    requires forall j :: 0 <= j < k ==> Timestamp(feed[j]) > watermark
    requires k < |feed| ==> Timestamp(feed[k]) <= watermark
    ensures NewPart(feed, watermark) == feed[..k]
    decreases k
  {
    if k > 0 { NewPartIsPrefix(feed[1..], watermark, k - 1); }
  }

  class BlobCollector {
    const db: Database
    var lastSeenTimestamp: nat

    constructor (db: Database)
      ensures this.db == db && lastSeenTimestamp == 0
    {
      this.db := db;
      lastSeenTimestamp := 0;
    }

    /** `feed` is the answer of the data API, None on error; `ok(k)` decides the k-th upsert. */
    method CollectBlobs(feed: Option<seq<FeedBlob>>, ok: nat -> bool) returns (newCount: nat)
      modifies this`lastSeenTimestamp, db`observedBlobs
      ensures feed == None ==> newCount == 0 && lastSeenTimestamp == old(lastSeenTimestamp) && db.observedBlobs == old(db.observedBlobs)
      ensures feed.Some? ==> lastSeenTimestamp == NextWatermark(feed.value, old(lastSeenTimestamp))
      ensures feed.Some? ==> db.observedBlobs == Upserted(old(db.observedBlobs), NewPart(feed.value, old(lastSeenTimestamp)), ok)
      ensures feed.Some? ==> newCount == |Succeeded(ok, |NewPart(feed.value, old(lastSeenTimestamp))|)|
      ensures lastSeenTimestamp >= old(lastSeenTimestamp)
    {
      if feed == None || |feed.value| == 0 { return 0; }
      newCount := 0;
      var blobs := feed.value;
      var k := 0;
      UpsertedNone(db.observedBlobs, blobs, ok);
      SucceededSnoc(ok, 0);
      while k < |blobs|
        invariant 0 <= k <= |blobs|
        invariant forall j :: 0 <= j < k ==> Timestamp(blobs[j]) > lastSeenTimestamp
        invariant lastSeenTimestamp == old(lastSeenTimestamp)
        invariant db.observedBlobs == Upserted(old(db.observedBlobs), blobs[..k], ok)
        invariant newCount == |Succeeded(ok, k)|
      {
        hide Upserted, Upsert, Succeeded;
        if Timestamp(blobs[k]) <= lastSeenTimestamp { break; }
        UpsertedSnoc(old(db.observedBlobs), blobs, k, ok);
        SucceededSnoc(ok, k);
        var cumPayment := None;
        if blobs[k].payment != 0 {
          cumPayment := Some(blobs[k].payment);
        }
        db.UpsertBlob(ObservedBlob(blobs[k].blobKey, blobs[k].identity, false, 0, cumPayment), ok(k));
        if ok(k) { newCount := newCount + 1; }
        k := k + 1;
      }
      NewPartIsPrefix(blobs, lastSeenTimestamp, k);
      if Timestamp(blobs[0]) > lastSeenTimestamp {
        lastSeenTimestamp := Timestamp(blobs[0]);
      }
    }
  }

  // ---------------------------------------------------------------- an append-only feed

  /** All blobs ever dispersed, oldest first: a later poll sees a longer prefix of the same list. */
  ghost predicate Increasing(all: seq<FeedBlob>) {
    && (forall i :: 0 <= i < |all| ==> Timestamp(all[i]) > 0)
    && (forall i, j :: 0 <= i < j < |all| ==> Timestamp(all[i]) < Timestamp(all[j]))
  }

  ghost predicate DistinctKeys(all: seq<FeedBlob>) {
    forall i, j :: 0 <= i < j < |all| ==> all[i].blobKey != all[j].blobKey
  }

  /** Oldest position that a poll of the first `n` blobs shows. */
  function Oldest(n: nat): nat {
    if n <= FEED_LIMIT then 0 else n - FEED_LIMIT
  }

  /** The newest-first page of at most 100 blobs when `n` blobs exist. */
  function Page(all: seq<FeedBlob>, n: nat): (page: seq<FeedBlob>)
    requires n <= |all|
    ensures |page| == n - Oldest(n)
  {
    seq(n - Oldest(n), i requires 0 <= i < n - Oldest(n) => all[n - 1 - i])
  }

  /** The watermark after the first `high` blobs were seen. */
  function WatermarkAt(all: seq<FeedBlob>, high: nat): nat
    requires high <= |all|
  {
    if high == 0 then 0 else Timestamp(all[high - 1])
  }

  /** The blobs newer than the watermark are those not seen before. */
  lemma NewerIsUnseen(all: seq<FeedBlob>, high: nat, p: nat)
    requires Increasing(all) && high <= |all| && p < |all|
    ensures Timestamp(all[p]) > WatermarkAt(all, high) <==> high <= p
  {
    hide Timestamp;
    if high > 0 { assert p < high - 1 ==> Timestamp(all[p]) < Timestamp(all[high - 1]); }
  }

  /** How many entries of its page a poll takes. */
  function TakenCount(high: nat, n: nat): (k: nat)
    ensures k <= n - Oldest(n)
  {
    if n <= high then 0 else n - Max(high, Oldest(n))
  }

  lemma PageAt(all: seq<FeedBlob>, n: nat, i: nat)
    requires n <= |all| && i < n - Oldest(n)
    ensures Page(all, n)[i] == all[n - 1 - i]
  {
  }

  /** A poll takes exactly the positions of its page not seen before, newest first. */
  lemma PollTakes(all: seq<FeedBlob>, high: nat, n: nat)
    requires Increasing(all) && high <= |all| && n <= |all|
    ensures NewPart(Page(all, n), WatermarkAt(all, high)) == Page(all, n)[..TakenCount(high, n)]
    ensures forall i :: 0 <= i < TakenCount(high, n) ==> Page(all, n)[i] == all[n - 1 - i]
    ensures NextWatermark(Page(all, n), WatermarkAt(all, high)) == WatermarkAt(all, Max(high, n))
  {
    var k := TakenCount(high, n);
    hide Increasing, Page, NewPart, Timestamp;
    forall i | 0 <= i < n - Oldest(n)
      ensures Page(all, n)[i] == all[n - 1 - i]
      ensures Timestamp(all[n - 1 - i]) > WatermarkAt(all, high) <==> high <= n - 1 - i
    {
      PageAt(all, n, i);
      NewerIsUnseen(all, high, n - 1 - i);
    }
    NewPartIsPrefix(Page(all, n), WatermarkAt(all, high), k);
  }

  /** Successful polls by the number of blobs they saw; `high` is the largest so far. */
  function HighAfter(polls: seq<nat>): nat {
    if |polls| == 0 then 0 else Max(HighAfter(polls[..|polls| - 1]), polls[|polls| - 1])
  }

  /** A poll of `n` blobs takes the position `p`, the first `high` having been seen. */
  ghost predicate Takes(high: nat, n: nat, p: nat) {
    high <= p < n && Oldest(n) <= p
  }

  /** Some poll took the position `p`. */
  ghost predicate Observed(polls: seq<nat>, p: nat) {
    |polls| > 0 &&
    (Observed(polls[..|polls| - 1], p) || Takes(HighAfter(polls[..|polls| - 1]), polls[|polls| - 1], p))
  }

  /** No blob is ever taken twice, so one whose upsert failed is never tried again. */
  lemma {:induction false} TakenOnce(polls: seq<nat>, p: nat)
    ensures Observed(polls, p) ==> p < HighAfter(polls)
    ensures |polls| > 0 ==>
      !(Observed(polls[..|polls| - 1], p) && Takes(HighAfter(polls[..|polls| - 1]), polls[|polls| - 1], p))
  {
    if |polls| > 0 { TakenOnce(polls[..|polls| - 1], p); }
  }

  // ---------------------------------------------------------------- the collector over a run of polls

  /** The outcome of the i-th upsert of a poll of `n` blobs, `ok` being indexed by position in the feed's list. */
  function PollOk(ok: nat -> bool, n: nat): nat -> bool {
    i => i < n && ok(n - 1 - i)
  }

  datatype Collected = Collected(watermark: nat, table: Blobs)

  /** The collector's state after successful polls, each as CollectBlobs says. */
  function Run(all: seq<FeedBlob>, polls: seq<nat>, ok: nat -> bool): Collected
    requires forall k :: 0 <= k < |polls| ==> polls[k] <= |all|
  {
    if |polls| == 0 then Collected(0, map[])
    else
      var c, n := Run(all, polls[..|polls| - 1], ok), polls[|polls| - 1];
      Collected(NextWatermark(Page(all, n), c.watermark),
                Upserted(c.table, NewPart(Page(all, n), c.watermark), PollOk(ok, n)))
  }

  ghost predicate Hit(blobs: seq<FeedBlob>, ok: nat -> bool, key: string, i: nat) {
    i < |blobs| && ok(i) && blobs[i].blobKey == key
  }

  lemma {:induction false} UpsertedKeys(table: Blobs, blobs: seq<FeedBlob>, ok: nat -> bool, key: string)
    ensures key in Upserted(table, blobs, ok) <==> key in table || exists i: nat :: Hit(blobs, ok, key, i)
  {
    if |blobs| > 0 {
      var front := blobs[..|blobs| - 1];
      UpsertedKeys(table, front, ok, key);
      if i: nat :| Hit(front, ok, key, i) { assert Hit(blobs, ok, key, i); }
      if ok(|front|) && blobs[|front|].blobKey == key { assert Hit(blobs, ok, key, |front|); }
      if i: nat :| Hit(blobs, ok, key, i) { assert i == |front| || Hit(front, ok, key, i); }
    }
  }

  /** The position `p` was taken, its upsert took effect, and it has this key. */
  ghost predicate Wrote(all: seq<FeedBlob>, polls: seq<nat>, ok: nat -> bool, key: string, p: nat) {
    p < |all| && Observed(polls, p) && ok(p) && all[p].blobKey == key
  }

  /** A poll of `n` blobs takes the position `p` and writes this key. */
  ghost predicate Lands(all: seq<FeedBlob>, high: nat, n: nat, ok: nat -> bool, key: string, p: nat) {
    p < |all| && Takes(high, n, p) && ok(p) && all[p].blobKey == key
  }

  /** Position `p` of the list is entry n - 1 - p of the page. */
  lemma HitIsLanding(all: seq<FeedBlob>, high: nat, n: nat, ok: nat -> bool, key: string, p: nat)
    requires Increasing(all) && high <= |all| && p < n <= |all|
    ensures Hit(NewPart(Page(all, n), WatermarkAt(all, high)), PollOk(ok, n), key, n - 1 - p)
      <==> Lands(all, high, n, ok, key, p)
  {
    PollTakes(all, high, n);
    hide NewPart, WatermarkAt, Increasing;
  }

  lemma PollWrites(all: seq<FeedBlob>, high: nat, n: nat, ok: nat -> bool, table: Blobs, key: string)
    requires Increasing(all) && high <= |all| && n <= |all|
    ensures key in Upserted(table, NewPart(Page(all, n), WatermarkAt(all, high)), PollOk(ok, n)) <==>
      key in table || exists p: nat :: Lands(all, high, n, ok, key, p)
  {
    var blobs := NewPart(Page(all, n), WatermarkAt(all, high));
    UpsertedKeys(table, blobs, PollOk(ok, n), key);
    if i: nat :| Hit(blobs, PollOk(ok, n), key, i) {
      assert i < n;
      HitIsLanding(all, high, n, ok, key, n - 1 - i);
    }
    if p: nat :| Lands(all, high, n, ok, key, p) {
      HitIsLanding(all, high, n, ok, key, p);
    }
  }

  /** The watermark is the newest blob seen; the table holds exactly the keys of the positions taken and written. */
  lemma {:induction false} RunIsObserved(all: seq<FeedBlob>, polls: seq<nat>, ok: nat -> bool, key: string)
    requires Increasing(all)
    requires forall k :: 0 <= k < |polls| ==> polls[k] <= |all|
    ensures HighAfter(polls) <= |all|
    ensures Run(all, polls, ok).watermark == WatermarkAt(all, HighAfter(polls))
    ensures key in Run(all, polls, ok).table <==> exists p: nat :: Wrote(all, polls, ok, key, p)
  {
    if |polls| > 0 {
      var front, n := polls[..|polls| - 1], polls[|polls| - 1];
      var high := HighAfter(front);
      RunIsObserved(all, front, ok, key);
      PollTakes(all, high, n);
      PollWrites(all, high, n, ok, Run(all, front, ok).table, key);
      if p: nat :| Wrote(all, front, ok, key, p) {
        assert Wrote(all, polls, ok, key, p);
      }
      if p: nat :| Lands(all, high, n, ok, key, p) {
        assert Wrote(all, polls, ok, key, p);
      }
      if p: nat :| Wrote(all, polls, ok, key, p) {
        assert Wrote(all, front, ok, key, p) || Lands(all, high, n, ok, key, p);
      }
    }
  }

  /** The row of a collected blob: its own identity, not self-dispersed, no latency, its payment unless that is zero. */
  ghost predicate TellsBlob(row: BlobRow, b: FeedBlob) {
    && row.identity == b.identity
    && !row.isSelfDispersed
    && row.dispersalLatencyMs == 0
    && row.cumulativePayment == if b.payment != 0 then Some(b.payment) else None
  }

  ghost predicate RowsTellBlobs(all: seq<FeedBlob>, table: Blobs) {
    forall p :: 0 <= p < |all| && all[p].blobKey in table ==> TellsBlob(table[all[p].blobKey], all[p])
  }

  lemma UpsertKeepsTelling(all: seq<FeedBlob>, table: Blobs, q: nat)
    requires DistinctKeys(all) && RowsTellBlobs(all, table) && q < |all|
    ensures RowsTellBlobs(all, Upsert(table, FromFeed(all[q].blobKey, all[q].identity, all[q].payment)))
  {
    var t := Upsert(table, FromFeed(all[q].blobKey, all[q].identity, all[q].payment));
    forall p | 0 <= p < |all| && all[p].blobKey in t ensures TellsBlob(t[all[p].blobKey], all[p]) {
      if p != q { assert all[p].blobKey != all[q].blobKey; }
    }
  }

  lemma {:induction false} UpsertedKeepTelling(all: seq<FeedBlob>, table: Blobs, blobs: seq<FeedBlob>, ok: nat -> bool)
    requires DistinctKeys(all) && RowsTellBlobs(all, table)
    requires forall i :: 0 <= i < |blobs| ==> blobs[i] in all
    ensures RowsTellBlobs(all, Upserted(table, blobs, ok))
  {
    if |blobs| > 0 {
      hide RowsTellBlobs, Upsert, FromFeed, DistinctKeys;
      var n := |blobs| - 1;
      UpsertedKeepTelling(all, table, blobs[..n], ok);
      var q :| 0 <= q < |all| && all[q] == blobs[n];
      UpsertKeepsTelling(all, Upserted(table, blobs[..n], ok), q);
    }
  }

  lemma {:induction false} RunTells(all: seq<FeedBlob>, polls: seq<nat>, ok: nat -> bool)
    requires Increasing(all) && DistinctKeys(all)
    requires forall k :: 0 <= k < |polls| ==> polls[k] <= |all|
    ensures RowsTellBlobs(all, Run(all, polls, ok).table)
  {
    if |polls| > 0 {
      hide RowsTellBlobs, Upserted, Upsert, Increasing, DistinctKeys;
      var front, n := polls[..|polls| - 1], polls[|polls| - 1];
      RunTells(all, front, ok);
      RunIsObserved(all, front, ok, "");
      PollTakes(all, HighAfter(front), n);
      UpsertedKeepTelling(all, Run(all, front, ok).table, NewPart(Page(all, n), WatermarkAt(all, HighAfter(front))), PollOk(ok, n));
    }
  }

  /**
   * Every row that a run of polls leaves is that of one taken position whose upsert took effect, with
   * that blob's identity and payment, no latency, and not marked as self-dispersed.
   */
  lemma RowsAreOfTakenBlobs(all: seq<FeedBlob>, polls: seq<nat>, ok: nat -> bool, key: string) returns (p: nat)
    requires Increasing(all) && DistinctKeys(all)
    requires forall k :: 0 <= k < |polls| ==> polls[k] <= |all|
    requires key in Run(all, polls, ok).table
    ensures p < |all| && Observed(polls, p) && ok(p) && all[p].blobKey == key
    ensures var row := Run(all, polls, ok).table[key];
      && row.identity == all[p].identity
      && !row.isSelfDispersed
      && row.dispersalLatencyMs == 0
      && (all[p].payment == 0 ==> row.cumulativePayment == None)
      && (all[p].payment != 0 ==> row.cumulativePayment == Some(all[p].payment))
  {
    RunIsObserved(all, polls, ok, key);
    RunTells(all, polls, ok);
    p :| Wrote(all, polls, ok, key, p);
  }

  // ---------------------------------------------------------------- when nothing is missed

  /** Oldest blob of the first page that showed any. */
  function Start(polls: seq<nat>): nat {
    if |polls| == 0 then 0
    else if HighAfter(polls[..|polls| - 1]) > 0 then Start(polls[..|polls| - 1])
    else Oldest(polls[|polls| - 1])
  }

  /** After the first page, no poll finds more than 100 new blobs. */
  ghost predicate KeepsUp(polls: seq<nat>) {
    forall k :: 0 <= k < |polls| && HighAfter(polls[..k]) > 0 ==> polls[k] <= HighAfter(polls[..k]) + 100
  }

  ghost predicate Inside(polls: seq<nat>, p: nat) {
    Start(polls) <= p < HighAfter(polls)
  }

  /** Every position from the start to the watermark was taken. */
  ghost predicate Complete(polls: seq<nat>) {
    forall p: nat :: Inside(polls, p) ==> Observed(polls, p)
  }

  lemma {:induction false} StartBelow(polls: seq<nat>)
    ensures Start(polls) <= HighAfter(polls)
    ensures HighAfter(polls) > 0 ==> Start(polls) < HighAfter(polls)
  {
    if |polls| > 0 { StartBelow(polls[..|polls| - 1]); }
  }

  /** Nothing older than the first page is ever taken. */
  lemma {:induction false} OnlyInside(polls: seq<nat>, p: nat)
    ensures Observed(polls, p) ==> Inside(polls, p)
  {
    if |polls| > 0 {
      OnlyInside(polls[..|polls| - 1], p);
      StartBelow(polls[..|polls| - 1]);
    }
  }

  lemma KeepsUpSnoc(polls: seq<nat>)
    requires |polls| > 0
    ensures var front, n := polls[..|polls| - 1], polls[|polls| - 1];
      KeepsUp(polls) <==> KeepsUp(front) && (HighAfter(front) > 0 ==> n <= HighAfter(front) + FEED_LIMIT)
  {
    var front := polls[..|polls| - 1];
    assert forall k :: 0 <= k < |front| ==> front[..k] == polls[..k] && front[k] == polls[k];
    assert polls[..|front|] == front;
  }

  lemma CompleteStep(polls: seq<nat>)
    requires |polls| > 0 && Complete(polls[..|polls| - 1])
    requires var front, n := polls[..|polls| - 1], polls[|polls| - 1];
      HighAfter(front) > 0 ==> n <= HighAfter(front) + FEED_LIMIT
    ensures Complete(polls)
  {
    var front := polls[..|polls| - 1];
    forall p: nat ensures Inside(polls, p) ==> Observed(polls, p) {
      assert Inside(front, p) ==> Observed(front, p);
    }
  }

  /** A position inside that was not taken stays so. */
  lemma GapStays(polls: seq<nat>, p: nat)
    requires |polls| > 0
    requires Inside(polls[..|polls| - 1], p) && !Observed(polls[..|polls| - 1], p)
    ensures Inside(polls, p) && !Observed(polls, p)
  {
  }

  /** More than 100 new blobs leave the oldest of them out. */
  lemma GapAppears(polls: seq<nat>)
    requires |polls| > 0
    requires var front, n := polls[..|polls| - 1], polls[|polls| - 1];
      HighAfter(front) > 0 && n > HighAfter(front) + FEED_LIMIT
    ensures var p := HighAfter(polls[..|polls| - 1]); Inside(polls, p) && !Observed(polls, p)
  {
    var front := polls[..|polls| - 1];
    StartBelow(front);
    TakenOnce(front, HighAfter(front));
  }

  /**
   * The collector takes every blob from the oldest of its first page up to the watermark exactly
   * when no later poll finds more than 100 new blobs.
   */
  lemma {:induction false} CompleteIffKeepsUp(polls: seq<nat>)
    ensures Complete(polls) <==> KeepsUp(polls)
  {
    if |polls| > 0 {
      var front, n := polls[..|polls| - 1], polls[|polls| - 1];
      CompleteIffKeepsUp(front);
      KeepsUpSnoc(polls);
      if HighAfter(front) > 0 && n > HighAfter(front) + FEED_LIMIT {
        GapAppears(polls);
      } else if Complete(front) {
        CompleteStep(polls);
      } else {
        var p: nat :| Inside(front, p) && !Observed(front, p);
        GapStays(polls, p);
      }
    }
  }

  /**
   * With distinct keys, no bursts and no failed upsert, the table holds exactly the blobs from the
   * oldest of the first page up to the watermark.
   */
  lemma TableIsEveryBlob(all: seq<FeedBlob>, polls: seq<nat>, ok: nat -> bool, q: nat)
    requires Increasing(all) && DistinctKeys(all)
    requires forall k :: 0 <= k < |polls| ==> polls[k] <= |all|
    requires KeepsUp(polls) && q < |all|
    ensures all[q].blobKey in Run(all, polls, ok).table <==>
      ok(q) && Start(polls) <= q && Timestamp(all[q]) <= Run(all, polls, ok).watermark
  {
    hide Run, Observed, Start, HighAfter;
    var key := all[q].blobKey;
    RunIsObserved(all, polls, ok, key);
    CompleteIffKeepsUp(polls);
    OnlyInside(polls, q);
    assert forall p: nat :: Wrote(all, polls, ok, key, p) ==> p == q;
    assert Wrote(all, polls, ok, key, q) <==> Inside(polls, q) && ok(q);
  }

  // ---------------------------------------------------------------- a burst

  function BurstBlob(i: nat): FeedBlob {
    FeedBlob(seq(i, j => 'x'), BlobIdentity("", "", 0, i + 1, 0, "", "", ""), 0)
  }

  /** 102 blobs with timestamps 1 to 102; the key of the i-th is i letters long. */
  function Burst(): (all: seq<FeedBlob>)
    ensures |all| == 102
  {
    seq(102, i requires 0 <= i < 102 => BurstBlob(i))
  }

  lemma BurstIsAFeed()
    ensures Increasing(Burst()) && DistinctKeys(Burst())
  {
    forall i | 0 <= i < 102 ensures Timestamp(Burst()[i]) == i + 1 && |Burst()[i].blobKey| == i {
      assert Burst()[i] == BurstBlob(i);
    }
  }

  lemma BurstPolls()
    ensures HighAfter([1, 102]) == 102
    ensures Inside([1, 102], 1) && !Observed([1, 102], 1)
  {
    var polls := [1, 102];
    assert polls[..1] == [1] && [1][..0] == [];
    assert HighAfter([1]) == 1;
    GapAppears(polls);
  }

  /** A first poll that sees one blob and a second that sees 102 lose the second blob, though it lies below the watermark. */
  lemma BurstLosesBlob(ok: nat -> bool)
    ensures Increasing(Burst()) && DistinctKeys(Burst())
    ensures var c := Run(Burst(), [1, 102], ok);
      Timestamp(Burst()[1]) < c.watermark && Burst()[1].blobKey !in c.table
  {
    BurstIsAFeed();
    BurstPolls();
    PositionLost(Burst(), [1, 102], ok, 1);
  }

  /** A position below the watermark that no poll took has no row, whatever upserts succeed. */
  lemma PositionLost(all: seq<FeedBlob>, polls: seq<nat>, ok: nat -> bool, q: nat)
    requires Increasing(all) && DistinctKeys(all)
    requires forall k :: 0 <= k < |polls| ==> polls[k] <= |all|
    requires q < |all| && q + 1 < HighAfter(polls) && !Observed(polls, q)
    ensures var c := Run(all, polls, ok);
      Timestamp(all[q]) < c.watermark && all[q].blobKey !in c.table
  {
    RunIsObserved(all, polls, ok, all[q].blobKey);
    assert forall p: nat :: Wrote(all, polls, ok, all[q].blobKey, p) ==> p == q;
  }
}
