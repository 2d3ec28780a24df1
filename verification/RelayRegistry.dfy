/** The relay URL cache shared by concurrent callers. */
module RelayRegistry {
  import opened Common

  type RelayKey = x: int | 0 <= x < 0x1_0000_0000

  datatype Entry = Entry(url: string, fetchedAt: int)

  type Cache = map<RelayKey, Entry>

  /** What the read-locked section answers: a URL stored less than `ttl` ago. */
  function Fresh(cache: Cache, key: RelayKey, now: int, ttl: int): Option<string> {
    if key in cache && now - cache[key].fetchedAt < ttl then Some(cache[key].url) else None
  }

  class RelayRegistry {
    var cache: Cache
    const ttl: int

    constructor (ttl: int)
      ensures cache == map[] && this.ttl == ttl
    {
      cache := map[];
      this.ttl := ttl;
    }

    /** The section under the read lock. */
    method ReadCache(key: RelayKey, now: int) returns (url: Option<string>)
      ensures url == Fresh(cache, key, now, ttl)
    {
      if key in cache && now - cache[key].fetchedAt < ttl {
        return Some(cache[key].url);
      }
      return None;
    }

    /** The section under the write lock. */
    method WriteCache(key: RelayKey, url: string, now: int)
      modifies this`cache
      ensures cache == old(cache)[key := Entry(url, now)]
    {
      cache := cache[key := Entry(url, now)];
    }

    /** One call without interference; `answer` is the contract's answer, None when the lookup failed. */
    method GetRelayURL(key: RelayKey, now: int, answer: Option<string>, later: int) returns (url: Option<string>)
      modifies this`cache
      ensures url == if Fresh(old(cache), key, now, ttl).Some? then Fresh(old(cache), key, now, ttl) else answer
      ensures cache == if Fresh(old(cache), key, now, ttl).Some? || answer == None then old(cache)
                       else old(cache)[key := Entry(answer.value, later)]
      // what was served now is served again until the entry is ttl old
      ensures url.Some? && Fresh(old(cache), key, now, ttl) == None ==>
        forall t :: later <= t < later + ttl ==> Fresh(cache, key, t, ttl) == url
    {
      url := ReadCache(key, now);
      if url == None && answer.Some? {
        WriteCache(key, answer.value, later);
        url := answer;
      }
    }
  }

  // ---------------------------------------------------------------- any number of concurrent callers

  /** A caller is idle, waits for a lookup begun at `begun`, or has a URL that it is about to store. */
  datatype Caller = Idle | Looking(key: RelayKey, begun: int) | Found(key: RelayKey, url: string, begun: int)

  /** A lookup that succeeded and whose URL was stored at time `at`. */
  datatype Stored = Stored(key: RelayKey, url: string, begun: int, at: int)

  datatype Reply = Reply(key: RelayKey, url: string, at: int, fromCache: bool)

  /** `lookups`, `stores` and `replies` record the successful lookups, the cache writes and the answers given. */
  datatype State = State(
    now: int,
    cache: Cache,
    callers: map<nat, Caller>,
    lookups: set<(RelayKey, string)>,
    stores: seq<Stored>,
    replies: seq<Reply>)

  datatype Action =
    | Wait(ticks: nat)
    | Call(i: nat, key: RelayKey)
    | LookupSucceeds(i: nat, url: string)
    | LookupFails(i: nat)
    | StoreUrl(i: nat)

  function CallerAt(s: State, i: nat): Caller {
    if i in s.callers then s.callers[i] else Idle
  }

  function Init(now: int): State {
    State(now, map[], map[], {}, [], [])
  }

  /** One atomic step; an action that does not fit its caller changes nothing. */
  function Step(s: State, a: Action, ttl: int): State {
    match a
    case Wait(ticks) => s.(now := s.now + ticks)
    case Call(i, key) =>
      if CallerAt(s, i) != Idle then s
      else
        (match Fresh(s.cache, key, s.now, ttl)
         case Some(url) => s.(replies := s.replies + [Reply(key, url, s.now, true)])
         case None => s.(callers := s.callers[i := Looking(key, s.now)]))
    case LookupSucceeds(i, url) =>
      (match CallerAt(s, i)
       case Looking(key, begun) =>
         s.(callers := s.callers[i := Found(key, url, begun)], lookups := s.lookups + {(key, url)})
       case _ => s)
    case LookupFails(i) =>
      (match CallerAt(s, i)
       case Looking(key, begun) => s.(callers := s.callers[i := Idle])
       case _ => s)
    case StoreUrl(i) =>
      (match CallerAt(s, i)
       case Found(key, url, begun) =>
         s.(cache := s.cache[key := Entry(url, s.now)],
            callers := s.callers[i := Idle],
            stores := s.stores + [Stored(key, url, begun, s.now)],
            replies := s.replies + [Reply(key, url, s.now, false)])
       case _ => s)
  }

  function Exec(s: State, sched: seq<Action>, ttl: int): State {
    if |sched| == 0 then s else Step(Exec(s, sched[..|sched| - 1], ttl), sched[|sched| - 1], ttl)
  }

  ghost predicate LookedUp(s: State, key: RelayKey, url: string) {
    (key, url) in s.lookups
  }

  ghost predicate StoreOk(s: State, r: Stored) {
    LookedUp(s, r.key, r.url) && r.begun <= r.at <= s.now
  }

  ghost predicate Wrote(st: Stored, key: RelayKey, e: Entry) {
    st.key == key && st.url == e.url && st.at == e.fetchedAt
  }

  /** The entry of `key` was written by one of the recorded stores. */
  ghost predicate EntryOk(s: State, key: RelayKey, e: Entry) {
    exists k :: 0 <= k < |s.stores| && Wrote(s.stores[k], key, e)
  }

  ghost predicate Backs(st: Stored, r: Reply, ttl: int) {
    st.key == r.key && st.url == r.url && st.at <= r.at && (if r.fromCache then r.at - st.at < ttl else st.at == r.at)
  }

  /** A reply comes from a store of the same key: less than ttl old if served from the cache. */
  ghost predicate ReplyOk(s: State, r: Reply, ttl: int) {
    exists k :: 0 <= k < |s.stores| && Backs(s.stores[k], r, ttl)
  }

  ghost predicate CallerOk(s: State, c: Caller) {
    match c
    case Idle => true
    case Looking(key, begun) => begun <= s.now
    case Found(key, url, begun) => begun <= s.now && LookedUp(s, key, url)
  }

  ghost predicate Inv(s: State, ttl: int) {
    && (forall k :: 0 <= k < |s.stores| ==> StoreOk(s, s.stores[k]))
    && (forall key :: key in s.cache ==> EntryOk(s, key, s.cache[key]))
    && (forall i :: i in s.callers ==> CallerOk(s, s.callers[i]))
    && (forall k :: 0 <= k < |s.replies| ==> ReplyOk(s, s.replies[k], ttl))
  }

  /** Later states have seen at least as much. */
  ghost predicate Extends(s: State, t: State) {
    s.now <= t.now && s.lookups <= t.lookups && s.stores <= t.stores
  }

  lemma ExtendsKeeps(s: State, t: State, ttl: int)
    requires Extends(s, t) && Inv(s, ttl)
    ensures forall k :: 0 <= k < |s.stores| ==> StoreOk(t, s.stores[k])
    ensures forall key :: key in s.cache ==> EntryOk(t, key, s.cache[key])
    ensures forall i :: i in s.callers ==> CallerOk(t, s.callers[i])
    ensures forall k :: 0 <= k < |s.replies| ==> ReplyOk(t, s.replies[k], ttl)
  {
    forall k | 0 <= k < |s.stores| ensures StoreOk(t, s.stores[k]) {
      assert StoreOk(s, s.stores[k]);
    }
    forall key | key in s.cache ensures EntryOk(t, key, s.cache[key]) {
      assert EntryOk(s, key, s.cache[key]);
      var k :| 0 <= k < |s.stores| && Wrote(s.stores[k], key, s.cache[key]);
      assert t.stores[k] == s.stores[k];
    }
    forall i | i in s.callers ensures CallerOk(t, s.callers[i]) {
      assert CallerOk(s, s.callers[i]);
    }
    forall n | 0 <= n < |s.replies| ensures ReplyOk(t, s.replies[n], ttl) {
      var r := s.replies[n];
      assert ReplyOk(s, r, ttl);
      var k :| 0 <= k < |s.stores| && Backs(s.stores[k], r, ttl);
      assert t.stores[k] == s.stores[k];
    }
  }

  lemma HitIsBacked(s: State, t: State, key: RelayKey, ttl: int)
    requires Inv(s, ttl) && Extends(s, t) && Fresh(s.cache, key, s.now, ttl).Some?
    ensures ReplyOk(t, Reply(key, s.cache[key].url, s.now, true), ttl)
  {
    var e := s.cache[key];
    assert EntryOk(s, key, e);
    var k :| 0 <= k < |s.stores| && Wrote(s.stores[k], key, e);
    assert StoreOk(s, s.stores[k]);
    assert t.stores[k] == s.stores[k] && Backs(t.stores[k], Reply(key, e.url, s.now, true), ttl);
  }

  lemma CallKeepsInv(s: State, i: nat, key: RelayKey, ttl: int)
    requires Inv(s, ttl)
    ensures Inv(Step(s, Call(i, key), ttl), ttl)
  {
    hide StoreOk, EntryOk, ReplyOk;
    var t := Step(s, Call(i, key), ttl);
    ExtendsKeeps(s, t, ttl);
    if t.replies != s.replies { HitIsBacked(s, t, key, ttl); }
  }

  lemma StoreKeepsInv(s: State, i: nat, ttl: int)
    requires Inv(s, ttl)
    ensures Inv(Step(s, StoreUrl(i), ttl), ttl)
  {
    var t := Step(s, StoreUrl(i), ttl);
    ExtendsKeeps(s, t, ttl);
    if t.stores != s.stores {
      var c := CallerAt(s, i);
      assert CallerOk(s, c);
      var n := |s.stores|;
      assert t.stores[n] == Stored(c.key, c.url, c.begun, s.now) && StoreOk(t, t.stores[n]);
      assert Wrote(t.stores[n], c.key, t.cache[c.key]);
      assert Backs(t.stores[n], Reply(c.key, c.url, s.now, false), ttl);
      forall key | key in t.cache ensures EntryOk(t, key, t.cache[key]) {
        if key != c.key { assert EntryOk(t, key, s.cache[key]); }
      }
    }
  }

  lemma StepKeepsInv(s: State, a: Action, ttl: int)
    requires Inv(s, ttl)
    ensures Inv(Step(s, a, ttl), ttl)
  {
    match a
    case Call(i, key) => CallKeepsInv(s, i, key, ttl);
    case StoreUrl(i) => StoreKeepsInv(s, i, ttl);
    case Wait(_) => ExtendsKeeps(s, Step(s, a, ttl), ttl);
    case LookupSucceeds(i, url) =>
      ExtendsKeeps(s, Step(s, a, ttl), ttl);
      assert CallerOk(s, CallerAt(s, i));
    case LookupFails(i) => ExtendsKeeps(s, Step(s, a, ttl), ttl);
  }

  lemma {:induction false} AlwaysInv(now: int, sched: seq<Action>, ttl: int)
    ensures Inv(Exec(Init(now), sched, ttl), ttl)
  {
    if |sched| > 0 {
      AlwaysInv(now, sched[..|sched| - 1], ttl);
      StepKeepsInv(Exec(Init(now), sched[..|sched| - 1], ttl), sched[|sched| - 1], ttl);
    }
  }

  /** Under any interleaving, a cached URL is the result of a successful lookup of that same key. */
  lemma CachedUrlsWereLookedUp(now: int, sched: seq<Action>, ttl: int, key: RelayKey)
    ensures var s := Exec(Init(now), sched, ttl);
      key in s.cache ==> LookedUp(s, key, s.cache[key].url)
  {
    var s := Exec(Init(now), sched, ttl);
    AlwaysInv(now, sched, ttl);
    if key in s.cache {
      assert EntryOk(s, key, s.cache[key]);
      var k :| 0 <= k < |s.stores| && Wrote(s.stores[k], key, s.cache[key]);
      assert StoreOk(s, s.stores[k]);
    }
  }

  /**
   * A URL served from the cache was stored less than ttl earlier by a lookup of the same key; if no
   * lookup took longer than `longest`, it was looked up less than ttl + longest ago.
   */
  lemma ServedUrlsAreRecent(now: int, sched: seq<Action>, ttl: int, longest: nat, n: nat) returns (k: nat)
    requires var s := Exec(Init(now), sched, ttl);
      && n < |s.replies| && s.replies[n].fromCache
      && forall j :: 0 <= j < |s.stores| ==> s.stores[j].at - s.stores[j].begun <= longest
    ensures var s := Exec(Init(now), sched, ttl);
      && k < |s.stores| && s.stores[k].key == s.replies[n].key && s.stores[k].url == s.replies[n].url
      && 0 <= s.replies[n].at - s.stores[k].at < ttl
      && s.replies[n].at - s.stores[k].begun < ttl + longest
      && LookedUp(s, s.replies[n].key, s.replies[n].url)
  {
    var s := Exec(Init(now), sched, ttl);
    AlwaysInv(now, sched, ttl);
    var r := s.replies[n];
    assert ReplyOk(s, r, ttl);
    k :| 0 <= k < |s.stores| && Backs(s.stores[k], r, ttl);
    assert StoreOk(s, s.stores[k]);
  }

  /** Only a store changes the cache, and only at its own key: failed lookups never do. */
  lemma OnlyStoresChangeCache(s: State, a: Action, ttl: int, key: RelayKey)
    ensures key in s.cache ==> key in Step(s, a, ttl).cache
    ensures !(a.StoreUrl? && CallerAt(s, a.i).Found? && CallerAt(s, a.i).key == key) ==>
      && (key in s.cache <==> key in Step(s, a, ttl).cache)
      && (key in s.cache ==> Step(s, a, ttl).cache[key] == s.cache[key])
    ensures a.LookupFails? ==> Step(s, a, ttl).cache == s.cache
  {
  }
}
