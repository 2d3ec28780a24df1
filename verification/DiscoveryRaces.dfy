/**
 * GetOperators under concurrent callers: three workers share the discovery, and its two locks are
 * held only while the cache is copied, while a list is sorted by the counters and while the cache is
 * replaced.  Fetches of different callers overlap, and the last one to finish fills the cache.
 */
module DiscoveryRaces {
  import opened Common
  import opened Operators
  import opened FailStreaks
  import opened StableSort
  import opened Discovery

  type Counts = map<OperatorId, nat>

  /** Where a caller stands: `Copied` and `Collected` have a list still to sort, `Sorted` one still to store. */
  datatype Caller =
    | Idle
    | Copied(ops: seq<OperatorInfo>, at: int)
    | Fetching
    | Collected(ops: seq<OperatorInfo>)
    | Sorted(ops: seq<OperatorInfo>, counts: Counts)

  /** A replacement of the cache. */
  datatype Fill = Fill(ops: seq<OperatorInfo>, at: int)

  /** An answer: the list, the counters it was sorted by, and when it was copied if the cache gave it. */
  datatype Reply = Reply(ops: seq<OperatorInfo>, counts: Counts, copied: Option<int>)

  /**
   * `fetches` records what each fetch that brought any operators left after deduplication, `fills`
   * the cache replacements and `replies` the answers given.
   */
  datatype State = State(
    now: int,
    cache: seq<OperatorInfo>,
    cacheTime: int,
    failCount: Counts,
    callers: map<nat, Caller>,
    fetches: set<seq<OperatorInfo>>,
    fills: seq<Fill>,
    replies: seq<Reply>)

  datatype Action =
    | Wait(ticks: nat)
    | ReportOne(r: Report)
    | Call(i: nat)
    | FetchEnds(i: nat, quorums: seq<Option<seq<OperatorInfo>>>)
    | SortList(i: nat, out: seq<OperatorInfo>)
    | StoreList(i: nat)

  function CallerAt(s: State, i: nat): Caller {
    if i in s.callers then s.callers[i] else Idle
  }

  function Init(now: int, counts: Counts): State {
    State(now, [], 0, counts, map[], {}, [], [])
  }

  /** The read-locked section: copy a fresh cache or go and fetch. */
  function CallStep(s: State, i: nat, ttl: int): State {
    if CallerAt(s, i) != Idle then s
    else if |s.cache| > 0 && s.now - s.cacheTime < ttl then s.(callers := s.callers[i := Copied(s.cache, s.now)])
    else s.(callers := s.callers[i := Fetching])
  }

  function FetchStep(s: State, i: nat, ops: seq<OperatorInfo>): State {
    if CallerAt(s, i) != Fetching then s
    else if ops == [] then s.(callers := s.callers[i := Idle])
    else s.(callers := s.callers[i := Collected(ops)], fetches := s.fetches + {ops})
  }

  /** The section under the counters' lock: the list becomes `out`, its stable order at this moment. */
  ghost function SortStep(s: State, i: nat, out: seq<OperatorInfo>): State {
    match CallerAt(s, i)
    case Copied(ops, at) =>
      if StablySorted(s.failCount, ops, out)
      then s.(callers := s.callers[i := Idle], replies := s.replies + [Reply(out, s.failCount, Some(at))])
      else s
    case Collected(ops) =>
      if StablySorted(s.failCount, ops, out) then s.(callers := s.callers[i := Sorted(out, s.failCount)]) else s
    case _ => s
  }

  /** The write-locked section. */
  function StoreStep(s: State, i: nat): State {
    match CallerAt(s, i)
    case Sorted(ops, counts) =>
      s.(cache := ops, cacheTime := s.now,
         callers := s.callers[i := Idle],
         fills := s.fills + [Fill(ops, s.now)],
         replies := s.replies + [Reply(ops, counts, None)])
    case _ => s
  }

  /** One atomic step; an action that does not fit its caller changes nothing. */
  ghost function Step(s: State, a: Action, ttl: int): State {
    match a
    case Wait(ticks) => s.(now := s.now + ticks)
    case ReportOne(r) => s.(failCount := Counted(s.failCount, r))
    case Call(i) => CallStep(s, i, ttl)
    case FetchEnds(i, quorums) => FetchStep(s, i, FirstSeen(Fetched(quorums)))
    case SortList(i, out) => SortStep(s, i, out)
    case StoreList(i) => StoreStep(s, i)
  }

  ghost function Exec(s: State, sched: seq<Action>, ttl: int): State {
    if |sched| == 0 then s else Step(Exec(s, sched[..|sched| - 1], ttl), sched[|sched| - 1], ttl)
  }

  // ---------------------------------------------------------------- invariant

  /** The list is that of one single fetch, in some order: never a mixture of two. */
  ghost predicate OneFetch(s: State, ops: seq<OperatorInfo>) {
    DistinctIds(ops) && ops != [] && exists f :: f in s.fetches && multiset(f) == multiset(ops)
  }

  ghost predicate FillOk(s: State, x: Fill) {
    OneFetch(s, x.ops) && x.at <= s.now
  }

  /** `ops` was the cache at time `at`, filled less than ttl before. */
  ghost predicate Recent(x: Fill, ops: seq<OperatorInfo>, at: int, ttl: int) {
    multiset(x.ops) == multiset(ops) && 0 <= at - x.at < ttl
  }

  ghost predicate FromCache(s: State, ops: seq<OperatorInfo>, at: int, ttl: int) {
    at <= s.now && OneFetch(s, ops) && exists k :: 0 <= k < |s.fills| && Recent(s.fills[k], ops, at, ttl)
  }

  ghost predicate CallerOk(s: State, c: Caller, ttl: int) {
    match c
    case Idle => true
    case Fetching => true
    case Copied(ops, at) => FromCache(s, ops, at, ttl)
    case Collected(ops) => OneFetch(s, ops)
    case Sorted(ops, counts) => OneFetch(s, ops) && Ascending(counts, ops)
  }

  ghost predicate ReplyOk(s: State, r: Reply, ttl: int) {
    && OneFetch(s, r.ops) && Ascending(r.counts, r.ops)
    && (r.copied.Some? ==> FromCache(s, r.ops, r.copied.value, ttl))
  }

  /** The cache is empty before the first fill, and the last fill after it. */
  ghost predicate CacheOk(s: State) {
    if |s.fills| == 0 then s.cache == []
    else s.cache == s.fills[|s.fills| - 1].ops && s.cacheTime == s.fills[|s.fills| - 1].at
  }

  ghost predicate FillsOk(s: State) {
    forall k :: 0 <= k < |s.fills| ==> FillOk(s, s.fills[k])
  }

  ghost predicate CallersOk(s: State, ttl: int) {
    forall i :: i in s.callers ==> CallerOk(s, s.callers[i], ttl)
  }

  ghost predicate RepliesOk(s: State, ttl: int) {
    forall k :: 0 <= k < |s.replies| ==> ReplyOk(s, s.replies[k], ttl)
  }

  ghost predicate Inv(s: State, ttl: int) {
    CacheOk(s) && FillsOk(s) && CallersOk(s, ttl) && RepliesOk(s, ttl)
  }

  /** Later states have seen at least as much. */
  ghost predicate Extends(s: State, t: State) {
    s.now <= t.now && s.fetches <= t.fetches && s.fills <= t.fills
  }

  lemma CacheLater(s: State, t: State, ops: seq<OperatorInfo>, at: int, ttl: int)
    requires Extends(s, t) && FromCache(s, ops, at, ttl)
    ensures FromCache(t, ops, at, ttl)
  {
    var k :| 0 <= k < |s.fills| && Recent(s.fills[k], ops, at, ttl);
    assert t.fills[k] == s.fills[k];
  }

  lemma CallerLater(s: State, t: State, c: Caller, ttl: int)
    requires Extends(s, t) && CallerOk(s, c, ttl)
    ensures CallerOk(t, c, ttl)
  {
    if c.Copied? { CacheLater(s, t, c.ops, c.at, ttl); }
  }

  lemma ReplyLater(s: State, t: State, r: Reply, ttl: int)
    requires Extends(s, t) && ReplyOk(s, r, ttl)
    ensures ReplyOk(t, r, ttl)
  {
    if r.copied.Some? { CacheLater(s, t, r.ops, r.copied.value, ttl); }
  }

  /** A step in which caller `i` moves to an allowed place and `given` are the new replies. */
  lemma MoveKeepsInv(s: State, t: State, i: nat, given: seq<Reply>, ttl: int)
    requires Inv(s, ttl) && Extends(s, t) && CacheOk(t) && FillsOk(t)
    requires t.callers.Keys == s.callers.Keys + {i} && forall j :: j in s.callers && j != i ==> t.callers[j] == s.callers[j]
    requires CallerOk(t, t.callers[i], ttl)
    requires t.replies == s.replies + given && forall k :: 0 <= k < |given| ==> ReplyOk(t, given[k], ttl)
    ensures Inv(t, ttl)
  {
    hide CallerOk, ReplyOk, Extends, CacheOk, FillsOk;
    forall j | j in t.callers ensures CallerOk(t, t.callers[j], ttl) {
      if j != i { CallerLater(s, t, s.callers[j], ttl); }
    }
    forall k | 0 <= k < |t.replies| ensures ReplyOk(t, t.replies[k], ttl) {
      if k < |s.replies| { ReplyLater(s, t, s.replies[k], ttl); }
    }
  }

  /** A step that only lets time pass or counts a report. */
  lemma OthersKeepInv(s: State, t: State, ttl: int)
    requires Inv(s, ttl) && Extends(s, t)
    requires t.cache == s.cache && t.cacheTime == s.cacheTime && t.fills == s.fills
    requires t.callers == s.callers && t.replies == s.replies
    ensures Inv(t, ttl)
  {
    forall k | 0 <= k < |t.fills| ensures FillOk(t, t.fills[k]) {
      assert FillOk(s, s.fills[k]);
    }
    forall j | j in t.callers ensures CallerOk(t, t.callers[j], ttl) {
      CallerLater(s, t, s.callers[j], ttl);
    }
    forall k | 0 <= k < |t.replies| ensures ReplyOk(t, t.replies[k], ttl) {
      ReplyLater(s, t, s.replies[k], ttl);
    }
  }

  lemma FillsLater(s: State, t: State)
    requires FillsOk(s) && Extends(s, t) && t.fills == s.fills
    ensures FillsOk(t)
  {
    forall k | 0 <= k < |t.fills| ensures FillOk(t, t.fills[k]) {
      assert FillOk(s, s.fills[k]);
    }
  }

  lemma HitIsRecent(s: State, ttl: int)
    requires CacheOk(s) && FillsOk(s) && |s.cache| > 0 && s.now - s.cacheTime < ttl
    ensures FromCache(s, s.cache, s.now, ttl)
  {
    var k := |s.fills| - 1;
    assert FillOk(s, s.fills[k]);
    assert Recent(s.fills[k], s.cache, s.now, ttl);
  }

  lemma CallKeepsInv(s: State, i: nat, ttl: int)
    requires Inv(s, ttl)
    ensures Inv(CallStep(s, i, ttl), ttl)
  {
    hide FromCache, FillsOk, FillOk, CallersOk, RepliesOk;
    var t := CallStep(s, i, ttl);
    if t != s {
      FillsLater(s, t);
      if t.callers[i].Copied? {
        HitIsRecent(s, ttl);
        CacheLater(s, t, s.cache, s.now, ttl);
      }
      MoveKeepsInv(s, t, i, [], ttl);
    }
  }

  lemma FetchKeepsInv(s: State, i: nat, ops: seq<OperatorInfo>, ttl: int)
    requires Inv(s, ttl) && DistinctIds(ops)
    ensures Inv(FetchStep(s, i, ops), ttl)
  {
    hide FillsOk, FillOk, CallersOk, RepliesOk;
    var t := FetchStep(s, i, ops);
    if t != s {
      FillsLater(s, t);
      if ops != [] { assert ops in t.fetches && OneFetch(t, ops); }
      MoveKeepsInv(s, t, i, [], ttl);
    }
  }

  /** A sorted list is still that of the same fetch. */
  lemma SortKeepsFetch(s: State, ops: seq<OperatorInfo>, out: seq<OperatorInfo>, counts: Counts)
    requires OneFetch(s, ops) && StablySorted(counts, ops, out)
    ensures OneFetch(s, out) && multiset(out) == multiset(ops)
  {
    SameGroupsPermute(counts, ops, out);
    DistinctIdsPermutation(ops, out);
    var f :| f in s.fetches && multiset(f) == multiset(ops);
  }

  lemma SortedReply(s: State, t: State, c: Caller, out: seq<OperatorInfo>, ttl: int)
    requires c.Copied? && FromCache(s, c.ops, c.at, ttl) && Extends(s, t)
    requires StablySorted(s.failCount, c.ops, out) && OneFetch(s, out) && multiset(out) == multiset(c.ops)
    ensures ReplyOk(t, Reply(out, s.failCount, Some(c.at)), ttl)
  {
    CacheLater(s, t, c.ops, c.at, ttl);
    var k :| 0 <= k < |t.fills| && Recent(t.fills[k], c.ops, c.at, ttl);
    assert Recent(t.fills[k], out, c.at, ttl);
  }

  lemma SortCopied(s: State, i: nat, out: seq<OperatorInfo>, ttl: int)
    requires Inv(s, ttl) && CallerAt(s, i).Copied? && StablySorted(s.failCount, CallerAt(s, i).ops, out)
    ensures Inv(SortStep(s, i, out), ttl)
  {
    var t, c := SortStep(s, i, out), CallerAt(s, i);
    assert CallerOk(s, c, ttl);
    hide FillsOk, CallersOk, RepliesOk, StablySorted, OneFetch, Recent, ReplyOk;
    FillsLater(s, t);
    SortKeepsFetch(s, c.ops, out, s.failCount);
    SortedReply(s, t, c, out, ttl);
    MoveKeepsInv(s, t, i, [Reply(out, s.failCount, Some(c.at))], ttl);
  }

  lemma SortCollected(s: State, i: nat, out: seq<OperatorInfo>, ttl: int)
    requires Inv(s, ttl) && CallerAt(s, i).Collected? && StablySorted(s.failCount, CallerAt(s, i).ops, out)
    ensures Inv(SortStep(s, i, out), ttl)
  {
    var t, c := SortStep(s, i, out), CallerAt(s, i);
    assert CallerOk(s, c, ttl) && OneFetch(t, c.ops);
    hide FillsOk, CallersOk, RepliesOk, OneFetch, SameGroups, Ascending;
    FillsLater(s, t);
    SortKeepsFetch(t, c.ops, out, s.failCount);
    MoveKeepsInv(s, t, i, [], ttl);
  }

  lemma SortKeepsInv(s: State, i: nat, out: seq<OperatorInfo>, ttl: int)
    requires Inv(s, ttl)
    ensures Inv(SortStep(s, i, out), ttl)
  {
    hide Inv, StablySorted;
    var c := CallerAt(s, i);
    if (c.Copied? || c.Collected?) && StablySorted(s.failCount, c.ops, out) {
      if c.Copied? { SortCopied(s, i, out, ttl); } else { SortCollected(s, i, out, ttl); }
    }
  }

  lemma StoreKeepsInv(s: State, i: nat, ttl: int)
    requires Inv(s, ttl)
    ensures Inv(StoreStep(s, i), ttl)
  {
    var t := StoreStep(s, i);
    var c := CallerAt(s, i);
    if c.Sorted? {
      assert CallerOk(s, c, ttl);
      forall k | 0 <= k < |t.fills| ensures FillOk(t, t.fills[k]) {
        if k < |s.fills| { assert FillOk(s, s.fills[k]); }
      }
      MoveKeepsInv(s, t, i, [Reply(c.ops, c.counts, None)], ttl);
    }
  }

  lemma StepKeepsInv(s: State, a: Action, ttl: int)
    requires Inv(s, ttl)
    ensures Inv(Step(s, a, ttl), ttl)
  {
    hide Inv, FirstSeen, Fetched, CallStep, FetchStep, SortStep, StoreStep;
    match a
    case Call(i) => CallKeepsInv(s, i, ttl);
    case FetchEnds(i, quorums) =>
      FirstSeenDistinct(Fetched(quorums));
      FetchKeepsInv(s, i, FirstSeen(Fetched(quorums)), ttl);
    case SortList(i, out) => SortKeepsInv(s, i, out, ttl);
    case StoreList(i) => StoreKeepsInv(s, i, ttl);
    case _ => OthersKeepInv(s, Step(s, a, ttl), ttl);
  }

  lemma {:induction false} AlwaysInv(now: int, counts: Counts, sched: seq<Action>, ttl: int)
    ensures Inv(Exec(Init(now, counts), sched, ttl), ttl)
  {
    if |sched| > 0 {
      hide Inv;
      AlwaysInv(now, counts, sched[..|sched| - 1], ttl);
      StepKeepsInv(Exec(Init(now, counts), sched[..|sched| - 1], ttl), sched[|sched| - 1], ttl);
    }
  }

  // ---------------------------------------------------------------- theorems

  /**
   * Under every interleaving an answer lists the operators of one single fetch, each ID once, in
   * ascending order of the counters at some moment of the call; one that came from the cache was
   * copied less than ttl after a fill with the same operators.
   */
  lemma EveryAnswerIsOneFetch(now: int, counts: Counts, sched: seq<Action>, ttl: int, n: nat) returns (f: seq<OperatorInfo>)
    requires n < |Exec(Init(now, counts), sched, ttl).replies|
    ensures var s := Exec(Init(now, counts), sched, ttl);
      var r := s.replies[n];
      && f in s.fetches && multiset(f) == multiset(r.ops) && DistinctIds(r.ops) && Ascending(r.counts, r.ops)
      && (r.copied.Some? ==> exists k :: 0 <= k < |s.fills| && Recent(s.fills[k], r.ops, r.copied.value, ttl))
  {
    var s := Exec(Init(now, counts), sched, ttl);
    AlwaysInv(now, counts, sched, ttl);
    assert ReplyOk(s, s.replies[n], ttl);
    f :| f in s.fetches && multiset(f) == multiset(s.replies[n].ops);
  }

  /** The cache is at every moment empty or the whole of one single fetch, however many fetches overlap. */
  lemma CacheIsOneFetch(now: int, counts: Counts, sched: seq<Action>, ttl: int)
    ensures var s := Exec(Init(now, counts), sched, ttl);
      s.cache != [] ==> DistinctIds(s.cache) && exists f :: f in s.fetches && multiset(f) == multiset(s.cache)
  {
    var s := Exec(Init(now, counts), sched, ttl);
    AlwaysInv(now, counts, sched, ttl);
    if s.cache != [] { assert FillOk(s, s.fills[|s.fills| - 1]); }
  }

  /**
   * Under every interleaving a call finds the operators of the last fill if that is less than ttl old,
   * and goes to fetch if it is not or if there was none.
   */
  lemma FreshCacheIsServed(now: int, counts: Counts, sched: seq<Action>, ttl: int, i: nat)
    requires CallerAt(Exec(Init(now, counts), sched, ttl), i) == Idle
    ensures var s := Exec(Init(now, counts), sched, ttl);
      var c := CallerAt(Step(s, Call(i), ttl), i);
      if |s.fills| > 0 && s.now - s.fills[|s.fills| - 1].at < ttl
      then c == Copied(s.fills[|s.fills| - 1].ops, s.now)
      else c == Fetching
  {
    var s := Exec(Init(now, counts), sched, ttl);
    AlwaysInv(now, counts, sched, ttl);
    if |s.fills| > 0 { assert FillOk(s, s.fills[|s.fills| - 1]); }
  }

  /** Only a caller that holds a sorted list of its own fetch changes the cache; empty fetches and hits never do. */
  lemma OnlyStoresChangeCache(s: State, a: Action, ttl: int)
    ensures (Step(s, a, ttl).cache != s.cache || Step(s, a, ttl).cacheTime != s.cacheTime) ==>
      a.StoreList? && CallerAt(s, a.i).Sorted? && Step(s, a, ttl).cache == CallerAt(s, a.i).ops
  {
  }
}
