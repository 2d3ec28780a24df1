/** Operator discovery: a deduplicated, cached, health-ordered operator list and failure counters. */
module Discovery {
  import opened Common
  import opened Operators
  import opened FailStreaks
  import opened StableSort

  /** GetOperators asks for quorums 0 to 9. */
  const MAX_QUORUMS: nat := 10

  /** The answers of the two calls made for one index of a quorum, None on error. */
  datatype IndexAnswer = IndexAnswer(update: Option<OperatorId>, socket: Option<string>)

  /** The operators of one quorum: every index that has an ID and a socket, in index order. */
  function Listed(answers: seq<IndexAnswer>): seq<OperatorInfo> {
    if |answers| == 0 then []
    else
      var front, last := Listed(answers[..|answers| - 1]), answers[|answers| - 1];
      if last.update.Some? && last.socket.Some? && Listable(OperatorInfo(last.update.value, last.socket.value))
      then front + [OperatorInfo(last.update.value, last.socket.value)]
      else front
  }

  /** Exactly the listable operators whose ID and socket some index answered: a failed index costs only itself. */
  lemma {:induction false} ListedExactly(answers: seq<IndexAnswer>, o: OperatorInfo)
    ensures o in Listed(answers) <==> Listable(o) && IndexAnswer(Some(o.id), Some(o.socket)) in answers
  {
    if |answers| > 0 {
      var n := |answers| - 1;
      ListedExactly(answers[..n], o);
      assert answers == answers[..n] + [answers[n]];
    }
  }

  lemma ListedUpTo(answers: seq<IndexAnswer>, n: nat)
    requires n < |answers|
    ensures var a, front := answers[n], Listed(answers[..n]);
      Listed(answers[..n + 1])
      == if a.update.Some? && a.update.value != 0 && a.socket.Some? && a.socket.value != ""
         then front + [OperatorInfo(a.update.value, a.socket.value)] else front
  {
    assert answers[..n + 1][..n] == answers[..n];
  }

  /**
   * The list of a quorum's first `n` indices has one entry for each index with an ID and a socket, in
   * index order; `keep` tells which those are and `item` what they are.
   */
  lemma {:induction false} ListedInOrder(answers: seq<IndexAnswer>, keep: nat -> bool, item: nat -> OperatorInfo, n: nat)
    returns (order: seq<nat>)
    requires n <= |answers|
    requires forall i :: 0 <= i < |answers| ==>
      && (keep(i) <==>
            answers[i].update.Some? && answers[i].update.value != 0 && answers[i].socket.Some? && answers[i].socket.value != "")
      && (keep(i) ==> item(i) == OperatorInfo(answers[i].update.value, answers[i].socket.value))
    ensures Lists(Listed(answers[..n]), order, n, keep, item)
  {
    hide Listed, Lists;
    if n == 0 {
      order := [];
      NothingListed(answers);
      ListsNone(keep, item);
    } else {
      var front := ListedInOrder(answers, keep, item, n - 1);
      ListsSnoc(Listed(answers[..n - 1]), front, n - 1, keep, item);
      ListedUpTo(answers, n - 1);
      order := if keep(n - 1) then front + [n - 1] else front;
    }
  }

  lemma NothingListed(answers: seq<IndexAnswer>)
    ensures Listed(answers[..0]) == []
  {
  }

  lemma ListedSnoc(answers: seq<IndexAnswer>, k: nat)
    requires k < |answers|
    ensures answers[..k + 1][..k] == answers[..k] && answers[..|answers|] == answers
  {
  }

  method GetOperatorAtIndex(a: IndexAnswer) returns (o: Option<OperatorInfo>)
    ensures o.Some? && o.value.socket != "" <==>
      a.update.Some? && a.socket.Some? && Listable(OperatorInfo(a.update.value, a.socket.value))
    ensures o.Some? && o.value.socket != "" ==> o.value == OperatorInfo(a.update.value, a.socket.value)
  {
    if a.update == None { return None; }
    if a.update.value == 0 { return Some(OperatorInfo(0, "")); }
    if a.socket == None { return None; }
    return Some(OperatorInfo(a.update.value, a.socket.value));
  }

  /** `answers` has one answer per index, or is None when the number of indices cannot be read. */
  method FetchOperators(answers: Option<seq<IndexAnswer>>) returns (operators: Option<seq<OperatorInfo>>)
    ensures operators == if answers == None then None else Some(Listed(answers.value))
  {
    if answers == None { return None; }
    var all := [];
    var k := 0;
    while k < |answers.value|
      invariant 0 <= k <= |answers.value|
      invariant all == Listed(answers.value[..k])
    {
      ListedSnoc(answers.value, k);
      var opInfo := GetOperatorAtIndex(answers.value[k]);
      if opInfo.Some? && opInfo.value.socket != "" {
        all := all + [opInfo.value];
      }
      k := k + 1;
    }
    assert answers.value[..k] == answers.value;
    return Some(all);
  }

  /** What the quorum fetches bring up to the first error, one list after the other. */
  function Fetched(quorums: seq<Option<seq<OperatorInfo>>>): seq<OperatorInfo> {
    if |quorums| == 0 || quorums[0] == None then []
    else quorums[0].value + Fetched(quorums[1..])
  }

  predicate Seen(ops: seq<OperatorInfo>, id: OperatorId) {
    exists i :: 0 <= i < |ops| && ops[i].id == id
  }

  /** One entry per ID: the first one. */
  function FirstSeen(ops: seq<OperatorInfo>): seq<OperatorInfo> {
    if |ops| == 0 then []
    else
      var front, last := ops[..|ops| - 1], ops[|ops| - 1];
      FirstSeen(front) + if Seen(front, last.id) then [] else [last]
  }

  ghost predicate FirstWithId(ops: seq<OperatorInfo>, i: nat) {
    i < |ops| && forall j :: 0 <= j < i ==> ops[j].id != ops[i].id
  }

  lemma FirstSeenSnoc(ops: seq<OperatorInfo>, o: OperatorInfo)
    ensures FirstSeen(ops + [o]) == if Seen(ops, o.id) then FirstSeen(ops) else FirstSeen(ops) + [o]
  {
    assert (ops + [o])[..|ops|] == ops;
  }

  lemma SeenSnoc(ops: seq<OperatorInfo>, o: OperatorInfo)
    ensures forall id :: Seen(ops + [o], id) <==> Seen(ops, id) || id == o.id
  {
    forall id ensures Seen(ops + [o], id) <==> Seen(ops, id) || id == o.id {
      if Seen(ops, id) {
        var i :| 0 <= i < |ops| && ops[i].id == id;
        assert (ops + [o])[i].id == id;
      }
      if id == o.id { assert (ops + [o])[|ops|].id == id; }
    }
  }

  lemma FirstSnoc(front: seq<OperatorInfo>, last: OperatorInfo)
    ensures FirstWithId(front + [last], |front|) <==> !Seen(front, last.id)
    ensures forall i: nat :: i < |front| ==> (FirstWithId(front + [last], i) <==> FirstWithId(front, i))
  {
    var ops := front + [last];
    assert forall j :: 0 <= j < |front| ==> ops[j] == front[j];
  }

  /** Deduplication leaves distinct IDs and loses no ID. */
  lemma {:induction false} FirstSeenDistinct(ops: seq<OperatorInfo>)
    ensures DistinctIds(FirstSeen(ops))
    ensures forall id :: Seen(FirstSeen(ops), id) <==> Seen(ops, id)
  {
    if |ops| > 0 {
      var front, last := ops[..|ops| - 1], ops[|ops| - 1];
      FirstSeenDistinct(front);
      assert ops == front + [last];
      FirstSeenSnoc(front, last);
      SeenSnoc(front, last);
      SeenSnoc(FirstSeen(front), last);
      assert !Seen(front, last.id) ==> !Seen(FirstSeen(front), last.id);
    }
  }

  /** `all` and `seen` are what the loops have gathered from these operators. */
  ghost predicate Gathered(all: seq<OperatorInfo>, seen: set<OperatorId>, ops: seq<OperatorInfo>) {
    all == FirstSeen(ops) && forall id :: id in seen <==> Seen(ops, id)
  }

  lemma GatheredSnoc(all: seq<OperatorInfo>, seen: set<OperatorId>, ops: seq<OperatorInfo>, o: OperatorInfo)
    requires Gathered(all, seen, ops)
    ensures if o.id in seen then Gathered(all, seen, ops + [o]) else Gathered(all + [o], seen + {o.id}, ops + [o])
  {
    hide FirstSeen, Seen;
    FirstSeenSnoc(ops, o);
    SeenSnoc(ops, o);
  }

  lemma OneMore(before: seq<OperatorInfo>, ops: seq<OperatorInfo>, k: nat)
    requires k < |ops|
    ensures before + ops[..k] + [ops[k]] == before + ops[..k + 1]
  {
    assert ops[..k + 1] == ops[..k] + [ops[k]];
  }

  lemma FirstSeenNothing()
    ensures Gathered([], {}, [])
  {
  }

  lemma EmptyOnlyIfNothingFetched(ops: seq<OperatorInfo>)
    ensures FirstSeen(ops) == [] <==> ops == []
  {
    if |ops| > 0 {
      FirstSeenDistinct(ops);
      assert Seen(ops, ops[0].id);
    }
  }

  /** `o` survives deduplication exactly if it is the first entry of its ID. */
  ghost predicate KeptIfFirst(ops: seq<OperatorInfo>, o: OperatorInfo) {
    o in FirstSeen(ops) <==> exists i: nat :: FirstWithId(ops, i) && ops[i] == o
  }

  lemma NothingKept(o: OperatorInfo)
    ensures KeptIfFirst([], o)
  {
    assert FirstSeen([]) == [];
  }

  lemma KeptIfFirstSnoc(front: seq<OperatorInfo>, last: OperatorInfo, o: OperatorInfo)
    requires KeptIfFirst(front, o)
    ensures KeptIfFirst(front + [last], o)
  {
    hide FirstSeen, Seen;
    var ops := front + [last];
    FirstSeenSnoc(front, last);
    FirstSnoc(front, last);
    if o in FirstSeen(front) {
      var i: nat :| i < |front| && FirstWithId(front, i) && front[i] == o;
      assert FirstWithId(ops, i) && ops[i] == o;
    }
    if !Seen(front, last.id) { assert FirstWithId(ops, |front|) && ops[|front|] == last; }
  }

  /** Deduplication keeps exactly the first entry of every ID. */
  lemma {:induction false} FirstSeenKeepsFirst(ops: seq<OperatorInfo>, o: OperatorInfo)
    ensures KeptIfFirst(ops, o)
  {
    hide KeptIfFirst;
    if |ops| == 0 {
      NothingKept(o);
    } else {
      FirstSeenKeepsFirst(ops[..|ops| - 1], o);
      KeptIfFirstSnoc(ops[..|ops| - 1], ops[|ops| - 1], o);
      assert ops[..|ops| - 1] + [ops[|ops| - 1]] == ops;
    }
  }

  /** First entries come out in the order of their first appearance. */
  lemma {:induction false} FirstSeenKeepsOrder(ops: seq<OperatorInfo>, k: nat)
    requires k <= |ops|
    ensures FirstSeen(ops[..k]) <= FirstSeen(ops)
    decreases |ops| - k
  {
    if k == |ops| {
      assert ops[..k] == ops;
    } else {
      assert ops[..k + 1] == ops[..k] + [ops[k]];
      FirstSeenSnoc(ops[..k], ops[k]);
      FirstSeenKeepsOrder(ops, k + 1);
    }
  }

  /** Reordering a list does not create repeated IDs. */
  lemma DistinctIdsPermutation(a: seq<OperatorInfo>, b: seq<OperatorInfo>)
    requires DistinctIds(a)
    requires multiset(a) == multiset(b)
    ensures DistinctIds(b)
  {
    DistinctPermutation(a, b);
    forall i, j | 0 <= i < j < |b| ensures b[i].id != b[j].id {
      assert b[i] in multiset(a) && b[j] in multiset(a);
      var p :| 0 <= p < |a| && a[p] == b[i];
      var q :| 0 <= q < |a| && a[q] == b[j];
      assert p != q;
    }
  }

  lemma {:induction false} FetchedCons(quorums: seq<Option<seq<OperatorInfo>>>, q: nat)
    requires q < |quorums|
    requires forall k :: 0 <= k <= q ==> quorums[k].Some?
    ensures Fetched(quorums[..q + 1]) == Fetched(quorums[..q]) + quorums[q].value
    decreases q
  {
    if q == 0 {
      assert quorums[..1][1..] == [];
    } else {
      FetchedCons(quorums[1..], q - 1);
      assert quorums[..q + 1][1..] == quorums[1..][..q];
      assert quorums[..q][1..] == quorums[1..][..q - 1];
    }
  }

  lemma {:induction false} FetchedMember(quorums: seq<Option<seq<OperatorInfo>>>, o: OperatorInfo)
    requires o in Fetched(quorums)
    ensures exists q :: 0 <= q < |quorums| && quorums[q].Some? && o in quorums[q].value
  {
    if o !in quorums[0].value {
      FetchedMember(quorums[1..], o);
      var q :| 0 <= q < |quorums[1..]| && quorums[1..][q].Some? && o in quorums[1..][q].value;
      assert quorums[q + 1].Some? && o in quorums[q + 1].value;
    }
  }

  /** The quorum lists are those that FetchOperators makes of some answers. */
  ghost predicate FromChain(quorums: seq<Option<seq<OperatorInfo>>>) {
    forall q :: 0 <= q < |quorums| && quorums[q].Some? ==> exists answers :: quorums[q].value == Listed(answers)
  }

  /** Every operator that discovery returns has an ID and a socket. */
  lemma OnlyListable(quorums: seq<Option<seq<OperatorInfo>>>, o: OperatorInfo)
    requires FromChain(quorums) && o in FirstSeen(Fetched(quorums))
    ensures Listable(o)
  {
    FirstSeenKeepsFirst(Fetched(quorums), o);
    FetchedMember(quorums, o);
    var q :| 0 <= q < |quorums| && quorums[q].Some? && o in quorums[q].value;
    var answers :| quorums[q].value == Listed(answers);
    ListedExactly(answers, o);
  }

  lemma {:induction false} FetchedStopsAtError(quorums: seq<Option<seq<OperatorInfo>>>, q: nat)
    requires q <= |quorums|
    requires forall k :: 0 <= k < q ==> quorums[k].Some?
    requires q < |quorums| ==> quorums[q] == None
    ensures Fetched(quorums) == Fetched(quorums[..q])
    decreases q
  {
    if q > 0 {
      FetchedStopsAtError(quorums[1..], q - 1);
      assert quorums[..q][1..] == quorums[1..][..q - 1];
    }
  }

  class Discovery {
    var cache: array<OperatorInfo>
    var cacheTime: int
    const ttl: int
    var failCount: map<OperatorId, nat>

    /** Every ReportResult call so far, and the operators of the last fetch that brought any. */
    ghost var history: seq<Report>
    ghost var lastFetch: seq<OperatorInfo>

    ghost predicate Valid()
      reads this, cache
    {
      && DistinctIds(cache[..])
      && multiset(cache[..]) == multiset(lastFetch)
      && CountsStreaks(failCount, history)
    }

    constructor (ttl: int)
      ensures Valid()
      ensures this.ttl == ttl && fresh(cache) && cache.Length == 0
      ensures failCount == map[] && history == []
    {
      this.ttl := ttl;
      cache := new OperatorInfo[0];
      cacheTime := 0;
      failCount := map[];
      history := [];
      lastFetch := [];
    }

    /**
     * `quorums[q]` is the answer of the fetch for quorum `q` (None on error); `now` and `later`
     * are the clock when the call begins and when it fills the cache.
     */
    method GetOperators(quorums: seq<Option<seq<OperatorInfo>>>, now: int, later: int)
      returns (r: Option<array<OperatorInfo>>)
      requires Valid()
      requires |quorums| == MAX_QUORUMS
      modifies this`cache, this`cacheTime, this`lastFetch
      ensures Valid()
      ensures r == None ==> cache == old(cache) && cacheTime == old(cacheTime)
      // an array that was ever the cache, and that earlier callers may share, is not written again
      ensures old(cache)[..] == old(cache[..])
      ensures r.Some? ==> r.value.Length > 0 && DistinctIds(r.value[..]) && Ascending(failCount, r.value[..])
      ensures r.Some? ==> fresh(r.value) && multiset(r.value[..]) == multiset(lastFetch)
      ensures lastFetch ==
        if old(cache.Length > 0 && now - cacheTime < ttl) || r == None then old(lastFetch) else FirstSeen(Fetched(quorums))
      // a hit: a fresh copy of the last fetch in the order of the present counters, cache untouched
      ensures old(cache.Length > 0 && now - cacheTime < ttl) ==>
        && r.Some? && r.value != cache
        && cache == old(cache) && cacheTime == old(cacheTime)
        && StablySorted(failCount, cache[..], r.value[..])
      // a miss: the operators fetched before the first error, one entry per ID; the cache keeps them
      ensures !old(cache.Length > 0 && now - cacheTime < ttl) ==> (r == None <==> Fetched(quorums) == [])
      ensures !old(cache.Length > 0 && now - cacheTime < ttl) && r.Some? ==>
        && cache == r.value && cacheTime == later
        && StablySorted(failCount, FirstSeen(Fetched(quorums)), r.value[..])
    {
      hide Fetched, FirstSeen, StablySorted, Seen, CountsStreaks;
      if cache.Length > 0 && now - cacheTime < ttl {
        var result := SortedCopy(cache[..], failCount);
        return Some(result);
      }
      var allOperators := CollectQuorums(quorums);
      FirstSeenDistinct(Fetched(quorums));
      EmptyOnlyIfNothingFetched(Fetched(quorums));
      if |allOperators| == 0 { return None; }
      var sorted := SortedCopy(allOperators, failCount);
      cache := sorted;
      cacheTime := later;
      lastFetch := allOperators;
      return Some(sorted);
    }

    /**
     * Two calls, the first of which fetched at time `filled`: less than ttl later the second returns
     * the same operators and leaves the cache alone; from ttl on it fetches anew.
     */
    method CallTwice(first: seq<Option<seq<OperatorInfo>>>, now: int, filled: int,
                     second: seq<Option<seq<OperatorInfo>>>, later: int, refilled: int)
      returns (r1: Option<array<OperatorInfo>>, r2: Option<array<OperatorInfo>>)
      requires Valid() && |first| == 10 && |second| == 10
      requires cache.Length == 0 || now - cacheTime >= ttl
      modifies this`cache, this`cacheTime, this`lastFetch
      ensures Valid()
      ensures r1.Some? && later - filled < ttl ==>
        && r2.Some? && r2.value != r1.value && StablySorted(failCount, r1.value[..], r2.value[..])
        && cache == r1.value && cacheTime == filled && lastFetch == FirstSeen(Fetched(first))
      ensures r1.Some? && later - filled >= ttl ==>
        if Fetched(second) == [] then
          r2 == None && cache == r1.value && cacheTime == filled
        else
          && r2.Some? && StablySorted(failCount, FirstSeen(Fetched(second)), r2.value[..])
          && cache == r2.value && cacheTime == refilled && lastFetch == FirstSeen(Fetched(second))
    {
      hide Fetched, FirstSeen, StablySorted, Ascending;
      r1 := GetOperators(first, now, filled);
      r2 := GetOperators(second, later, refilled);
    }

    static method SortedCopy(ops: seq<OperatorInfo>, counts: map<OperatorId, nat>) returns (a: array<OperatorInfo>)
      requires DistinctIds(ops)
      ensures fresh(a) && a.Length == |ops|
      ensures StablySorted(counts, ops, a[..]) && DistinctIds(a[..])
      ensures multiset(a[..]) == multiset(ops)
    {
      a := new OperatorInfo[|ops|](i requires 0 <= i < |ops| => ops[i]);
      assert a[..] == ops;
      SortByFailCount(a, counts);
      SameGroupsPermute(counts, ops, a[..]);
      DistinctIdsPermutation(ops, a[..]);
    }

    static method CollectQuorums(quorums: seq<Option<seq<OperatorInfo>>>) returns (all: seq<OperatorInfo>)
      ensures all == FirstSeen(Fetched(quorums))
    {
      var seen: set<OperatorId> := {};
      all := [];
      var q := 0;
      assert Fetched(quorums[..0]) == [];
      hide Fetched, FirstSeen, Seen;
      FirstSeenNothing();
      while q < |quorums| && quorums[q].Some?
        invariant 0 <= q <= |quorums|
        invariant forall k :: 0 <= k < q ==> quorums[k].Some?
        invariant Gathered(all, seen, Fetched(quorums[..q]))
      {
        FetchedCons(quorums, q);
        all, seen := AddQuorum(all, seen, Fetched(quorums[..q]), quorums[q].value);
        q := q + 1;
      }
      FetchedStopsAtError(quorums, q);
    }

    /** The loop over the operators of one quorum. */
    static method AddQuorum(all: seq<OperatorInfo>, seen: set<OperatorId>, ghost before: seq<OperatorInfo>,
                            operators: seq<OperatorInfo>)
      returns (all': seq<OperatorInfo>, seen': set<OperatorId>)
      requires Gathered(all, seen, before)
      ensures Gathered(all', seen', before + operators)
    {
      all', seen' := all, seen;
      var k := 0;
      assert before + operators[..0] == before;
      while k < |operators|
        invariant 0 <= k <= |operators|
        invariant Gathered(all', seen', before + operators[..k])
      {
        hide Gathered;
        var op := operators[k];
        GatheredSnoc(all', seen', before + operators[..k], op);
        OneMore(before, operators, k);
        if op.id !in seen' {
          seen' := seen' + {op.id};
          all' := all' + [op];
        }
        k := k + 1;
      }
      assert before + operators[..k] == before + operators;
    }

    /** Counts consecutive failures; a success forgets them. */
    method ReportResult(id: OperatorId, success: bool)
      requires Valid()
      modifies this`failCount, this`history
      ensures Valid()
      ensures history == old(history) + [Report(id, success)]
      ensures failCount == Counted(old(failCount), Report(id, success))
    {
      CountedKeepsStreaks(failCount, history, Report(id, success));
      hide CountsStreaks;
      if success {
        failCount := failCount - {id};
      } else {
        failCount := failCount[id := (if id in failCount then failCount[id] else 0) + 1];
      }
      history := history + [Report(id, success)];
    }

    /** Blacklisted means: the last five reports exist and all failed. */
    method IsBlacklisted(id: OperatorId) returns (b: bool)
      requires Valid()
      ensures b <==> EndsWithFailures(Outcomes(history, id), 5)
    {
      b := (if id in failCount then failCount[id] else 0) >= BLACKLIST_THRESHOLD;
      StreakIsMaximal(Outcomes(history, id), BLACKLIST_THRESHOLD);
    }

    /** The operators whose last five reports all failed. */
    ghost function Blacklisted(): (ids: set<OperatorId>)
      reads this
    {
      set id | id in ReportedIds(history) && EndsWithFailures(Outcomes(history, id), 5)
    }

    method BlacklistedCount() returns (count: nat)
      requires Valid()
      ensures count == |Blacklisted()|
    {
      count := 0;
      var rest := failCount.Keys;
      ghost var counted: set<OperatorId> := {};
      while rest != {}
        invariant rest <= failCount.Keys
        invariant counted == set id | id in failCount.Keys - rest && failCount[id] >= BLACKLIST_THRESHOLD
        invariant count == |counted|
        decreases rest
      {
        var id :| id in rest;
        if failCount[id] >= BLACKLIST_THRESHOLD {
          count := count + 1;
          counted := counted + {id};
        }
        rest := rest - {id};
      }
      forall id ensures id in counted <==> id in Blacklisted() {
        StreakIsMaximal(Outcomes(history, id), BLACKLIST_THRESHOLD);
        UnreportedIsEmpty(history, id);
        assert FailCount(failCount, id) == TrailingFailures(Outcomes(history, id));
      }
      assert counted == Blacklisted();
    }
  }
}
