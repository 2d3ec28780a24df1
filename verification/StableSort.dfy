/** Stable ordering of operators by consecutive failures: healthy operators first. */
module StableSort {
  import opened Operators
  import opened FailStreaks

  /** The operators with exactly `c` failures, in list order. */
  function Group(counts: map<OperatorId, nat>, ops: seq<OperatorInfo>, c: nat): seq<OperatorInfo> {
    if |ops| == 0 then []
    else
      var last := ops[|ops| - 1];
      Group(counts, ops[..|ops| - 1], c) + if FailCount(counts, last.id) == c then [last] else []
  }

  ghost predicate Ascending(counts: map<OperatorId, nat>, ops: seq<OperatorInfo>) {
    forall i, j :: 0 <= i < j < |ops| ==> FailCount(counts, ops[i].id) <= FailCount(counts, ops[j].id)
  }

  ghost predicate SameGroups(counts: map<OperatorId, nat>, a: seq<OperatorInfo>, b: seq<OperatorInfo>) {
    |a| == |b| && forall c: nat :: Group(counts, a, c) == Group(counts, b, c)
  }

  /** `out` is `inp` sorted by failures, ties in their original order. */
  ghost predicate StablySorted(counts: map<OperatorId, nat>, inp: seq<OperatorInfo>, out: seq<OperatorInfo>) {
    Ascending(counts, out) && SameGroups(counts, inp, out)
  }

  lemma GroupSnoc(counts: map<OperatorId, nat>, ops: seq<OperatorInfo>, o: OperatorInfo, c: nat)
    ensures Group(counts, ops + [o], c)
         == if FailCount(counts, o.id) == c then Group(counts, ops, c) + [o] else Group(counts, ops, c)
  {
    assert (ops + [o])[..|ops|] == ops;
  }

  lemma GroupFront(counts: map<OperatorId, nat>, ops: seq<OperatorInfo>, c: nat)
    requires |ops| > 0
    ensures var g, n := Group(counts, ops, c), |ops| - 1;
      if FailCount(counts, ops[n].id) == c
      then |g| > 0 && g[|g| - 1] == ops[n] && Group(counts, ops[..n], c) == g[..|g| - 1]
      else Group(counts, ops[..n], c) == g
  {
  }

  ghost predicate GroupsConcat(counts: map<OperatorId, nat>, a: seq<OperatorInfo>, b: seq<OperatorInfo>, c: nat) {
    Group(counts, a + b, c) == Group(counts, a, c) + Group(counts, b, c)
  }

  lemma GroupConcatSnoc(counts: map<OperatorId, nat>, a: seq<OperatorInfo>, b: seq<OperatorInfo>, o: OperatorInfo, c: nat)
    requires GroupsConcat(counts, a, b, c)
    ensures GroupsConcat(counts, a, b + [o], c)
  {
    hide Group;
    assert (a + b) + [o] == a + (b + [o]);
    GroupSnoc(counts, a + b, o, c);
    GroupSnoc(counts, b, o, c);
  }

  lemma {:induction false} GroupConcat(counts: map<OperatorId, nat>, a: seq<OperatorInfo>, b: seq<OperatorInfo>, c: nat)
    ensures GroupsConcat(counts, a, b, c)
    decreases |b|
  {
    if |b| == 0 {
      assert a + b == a;
    } else {
      hide GroupsConcat;
      GroupConcat(counts, a, b[..|b| - 1], c);
      GroupConcatSnoc(counts, a, b[..|b| - 1], b[|b| - 1], c);
      assert b[..|b| - 1] + [b[|b| - 1]] == b;
    }
  }

  /** Exchanging two neighbours with different failure counts moves nothing within a group. */
  lemma SwapKeepsGroups(counts: map<OperatorId, nat>, ops: seq<OperatorInfo>, j: nat)
    requires 0 < j < |ops|
    requires FailCount(counts, ops[j].id) != FailCount(counts, ops[j - 1].id)
    ensures SameGroups(counts, ops, ops[j := ops[j - 1]][j - 1 := ops[j]])
  {
    hide Group;
    var swapped := ops[j := ops[j - 1]][j - 1 := ops[j]];
    var front, back := ops[..j - 1], ops[j + 1..];
    assert ops == front + [ops[j - 1], ops[j]] + back;
    assert swapped == front + [ops[j], ops[j - 1]] + back;
    forall c: nat ensures Group(counts, ops, c) == Group(counts, swapped, c) {
      GroupConcat(counts, front + [ops[j - 1], ops[j]], back, c);
      GroupConcat(counts, front + [ops[j], ops[j - 1]], back, c);
      assert front + [ops[j - 1], ops[j]] == front + [ops[j - 1]] + [ops[j]];
      assert front + [ops[j], ops[j - 1]] == front + [ops[j]] + [ops[j - 1]];
      GroupSnoc(counts, front + [ops[j - 1]], ops[j], c);
      GroupSnoc(counts, front + [ops[j]], ops[j - 1], c);
      GroupSnoc(counts, front, ops[j], c);
      GroupSnoc(counts, front, ops[j - 1], c);
    }
  }

  lemma BagSnoc(ops: seq<OperatorInfo>, o: OperatorInfo)
    ensures multiset(ops + [o]) == multiset(ops) + multiset{o}
  {
  }

  ghost predicate BagInGroup(counts: map<OperatorId, nat>, ops: seq<OperatorInfo>, o: OperatorInfo) {
    multiset(Group(counts, ops, FailCount(counts, o.id)))[o] == multiset(ops)[o]
  }

  lemma GroupBagSnoc(counts: map<OperatorId, nat>, ops: seq<OperatorInfo>, last: OperatorInfo, o: OperatorInfo)
    requires BagInGroup(counts, ops, o)
    ensures BagInGroup(counts, ops + [last], o)
  {
    hide Group, FailCount;
    var c := FailCount(counts, o.id);
    GroupSnoc(counts, ops, last, c);
    BagSnoc(ops, last);
    BagSnoc(Group(counts, ops, c), last);
  }

  /** An operator occurs in its group as often as in the list. */
  lemma {:induction false} GroupBag(counts: map<OperatorId, nat>, ops: seq<OperatorInfo>, o: OperatorInfo)
    ensures BagInGroup(counts, ops, o)
  {
    if |ops| > 0 {
      hide BagInGroup;
      GroupBag(counts, ops[..|ops| - 1], o);
      GroupBagSnoc(counts, ops[..|ops| - 1], ops[|ops| - 1], o);
      assert ops[..|ops| - 1] + [ops[|ops| - 1]] == ops;
    }
  }

  /** Lists with equal groups are permutations of each other. */
  lemma SameGroupsPermute(counts: map<OperatorId, nat>, a: seq<OperatorInfo>, b: seq<OperatorInfo>)
    requires SameGroups(counts, a, b)
    ensures multiset(a) == multiset(b)
  {
    forall o ensures multiset(a)[o] == multiset(b)[o] {
      GroupBag(counts, a, o);
      GroupBag(counts, b, o);
    }
  }

  lemma {:induction false} LastOfGroup(counts: map<OperatorId, nat>, ops: seq<OperatorInfo>, c: nat)
    ensures forall i :: 0 <= i < |ops| && FailCount(counts, ops[i].id) == c ==> |Group(counts, ops, c)| > 0
    ensures |Group(counts, ops, c)| > 0 ==> exists i :: 0 <= i < |ops| && FailCount(counts, ops[i].id) == c
  {
    if |ops| > 0 {
      var n := |ops| - 1;
      LastOfGroup(counts, ops[..n], c);
      if FailCount(counts, ops[n].id) != c {
        forall i | 0 <= i < |ops| && FailCount(counts, ops[i].id) == c ensures |Group(counts, ops, c)| > 0 {
          assert ops[..n][i] == ops[i];
        }
        if |Group(counts, ops, c)| > 0 {
          var i :| 0 <= i < |ops[..n]| && FailCount(counts, ops[..n][i].id) == c;
          assert FailCount(counts, ops[i].id) == c;
        }
      }
    }
  }

  /** Whatever algorithm is used, there is only one stable ordering. */
  lemma {:induction false} StableOrderIsUnique(counts: map<OperatorId, nat>, inp: seq<OperatorInfo>,
                                               a: seq<OperatorInfo>, b: seq<OperatorInfo>)
    requires StablySorted(counts, inp, a)
    requires StablySorted(counts, inp, b)
    ensures a == b
  {
    SortedGroupsEqual(counts, a, b);
  }

  lemma LastsAgree(counts: map<OperatorId, nat>, a: seq<OperatorInfo>, b: seq<OperatorInfo>)
    requires Ascending(counts, a) && Ascending(counts, b)
    requires SameGroups(counts, a, b) && |a| > 0
    ensures a[|a| - 1] == b[|b| - 1]
  {
    var n := |a| - 1;
    var ca, cb := FailCount(counts, a[n].id), FailCount(counts, b[n].id);
    LastOfGroup(counts, a, cb);
    LastOfGroup(counts, b, cb);
    LastOfGroup(counts, a, ca);
    LastOfGroup(counts, b, ca);
    assert ca == cb;
    GroupFront(counts, a, ca);
    GroupFront(counts, b, ca);
  }

  lemma FrontsAgree(counts: map<OperatorId, nat>, a: seq<OperatorInfo>, b: seq<OperatorInfo>)
    requires SameGroups(counts, a, b) && |a| > 0 && a[|a| - 1] == b[|b| - 1]
    ensures SameGroups(counts, a[..|a| - 1], b[..|b| - 1])
  {
    hide Group;
    var frontA, frontB := a[..|a| - 1], b[..|b| - 1];
    forall c: nat ensures Group(counts, frontA, c) == Group(counts, frontB, c) {
      GroupFront(counts, a, c);
      GroupFront(counts, b, c);
      assert Group(counts, a, c) == Group(counts, b, c);
    }
  }

  lemma AscendingFront(counts: map<OperatorId, nat>, ops: seq<OperatorInfo>)
    requires Ascending(counts, ops) && |ops| > 0
    ensures Ascending(counts, ops[..|ops| - 1])
  {
  }

  lemma {:induction false} SortedGroupsEqual(counts: map<OperatorId, nat>, a: seq<OperatorInfo>, b: seq<OperatorInfo>)
    requires Ascending(counts, a) && Ascending(counts, b)
    requires SameGroups(counts, a, b)
    ensures a == b
    decreases |a|
  {
    if |a| > 0 {
      hide Ascending, Group;
      var n := |a| - 1;
      AscendingFront(counts, a);
      AscendingFront(counts, b);
      LastsAgree(counts, a, b);
      FrontsAgree(counts, a, b);
      var frontA, frontB := a[..n], b[..n];
      SortedGroupsEqual(counts, frontA, frontB);
      assert a == frontA + [a[n]] && b == frontB + [b[n]];
    }
  }

  /** Ascending but for the element at `j`, which may be smaller than those before it. */
  ghost predicate AscendingBut(counts: map<OperatorId, nat>, ops: seq<OperatorInfo>, j: nat) {
    forall p, q :: 0 <= p < q < |ops| && q != j ==> FailCount(counts, ops[p].id) <= FailCount(counts, ops[q].id)
  }

  lemma SwapKeepsOrder(counts: map<OperatorId, nat>, ops: seq<OperatorInfo>, j: nat)
    requires 0 < j < |ops| && AscendingBut(counts, ops, j)
    requires FailCount(counts, ops[j].id) < FailCount(counts, ops[j - 1].id)
    ensures AscendingBut(counts, ops[j := ops[j - 1]][j - 1 := ops[j]], j - 1)
  {
    hide FailCount;
  }

  lemma SameGroupsTrans(counts: map<OperatorId, nat>, a: seq<OperatorInfo>, b: seq<OperatorInfo>, c: seq<OperatorInfo>)
    requires SameGroups(counts, a, b) && SameGroups(counts, b, c)
    ensures SameGroups(counts, a, c)
  {
  }

  /** sort.SliceStable with the failure count as key, in place, by insertion. */
  method SortByFailCount(a: array<OperatorInfo>, counts: map<OperatorId, nat>)
    modifies a
    ensures StablySorted(counts, old(a[..]), a[..])
  {
    var i := 0;
    while i < a.Length
      invariant 0 <= i <= a.Length
      invariant SameGroups(counts, old(a[..]), a[..])
      invariant Ascending(counts, a[..i])
    {
      hide SameGroups, Ascending;
      ghost var before := a[..];
      SinkInto(a, i, counts);
      SameGroupsTrans(counts, old(a[..]), before, a[..]);
      i := i + 1;
    }
    assert a[..i] == a[..];
  }

  /** Moves the element at `i` down into the sorted part before it. */
  method SinkInto(a: array<OperatorInfo>, i: nat, counts: map<OperatorId, nat>)
    requires i < a.Length && Ascending(counts, a[..i])
    modifies a
    ensures Ascending(counts, a[..i + 1]) && SameGroups(counts, old(a[..]), a[..])
  {
    var j := i;
    while j > 0 && FailCount(counts, a[j].id) < FailCount(counts, a[j - 1].id)
      invariant 0 <= j <= i
      invariant SameGroups(counts, old(a[..]), a[..])
      invariant AscendingBut(counts, a[..i + 1], j)
    {
      hide SameGroups, AscendingBut, FailCount;
      ghost var before := a[..];
      a[j], a[j - 1] := a[j - 1], a[j];
      assert a[..] == before[j := before[j - 1]][j - 1 := before[j]];
      SwapKeepsGroups(counts, before, j);
      SameGroupsTrans(counts, old(a[..]), before, a[..]);
      SwapKeepsOrder(counts, before[..i + 1], j);
      assert a[..i + 1] == before[..i + 1][j := before[j - 1]][j - 1 := before[j]];
      j := j - 1;
    }
  }
}
