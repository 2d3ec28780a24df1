/** The observed_blobs row that two workers write: the on-conflict merge of UpsertBlob. */
module BlobTable {
  import opened Common

  /** The columns that only the first insert of a blob key sets. */
  datatype BlobIdentity = BlobIdentity(
    accountId: string,
    blobStatus: string,
    blobSizeBytes: int,
    requestedAt: nat,
    expiryUnixSec: nat,
    commitmentX: string,
    commitmentY: string,
    quorumNumbers: string)

  datatype ObservedBlob = ObservedBlob(
    blobKey: string,
    identity: BlobIdentity,
    isSelfDispersed: bool,
    dispersalLatencyMs: int,
    cumulativePayment: Option<int>)

  datatype BlobRow = BlobRow(
    identity: BlobIdentity,
    isSelfDispersed: bool,
    dispersalLatencyMs: int,
    cumulativePayment: Option<int>)

  type Blobs = map<string, BlobRow>

  /** INSERT ... ON CONFLICT (blob_key) DO UPDATE. */
  function Upsert(table: Blobs, b: ObservedBlob): Blobs {
    if b.blobKey in table then
      var row := table[b.blobKey];
      table[b.blobKey := BlobRow(
        row.identity,
        b.isSelfDispersed || row.isSelfDispersed,
        if b.dispersalLatencyMs != 0 then b.dispersalLatencyMs else row.dispersalLatencyMs,
        if b.cumulativePayment.Some? then b.cumulativePayment else row.cumulativePayment)]
    else
      table[b.blobKey := BlobRow(b.identity, b.isSelfDispersed, b.dispersalLatencyMs, b.cumulativePayment)]
  }

  /** A whole history of upserts applied to the empty table. */
  function UpsertAll(us: seq<ObservedBlob>): Blobs {
    if |us| == 0 then map[] else Upsert(UpsertAll(us[..|us| - 1]), us[|us| - 1])
  }

  ghost predicate Mentions(us: seq<ObservedBlob>, key: string) {
    exists i :: 0 <= i < |us| && us[i].blobKey == key
  }

  // What a row says about the upserts of its key, column by column.

  ghost predicate FirstIdentity(us: seq<ObservedBlob>, key: string, identity: BlobIdentity) {
    exists i :: 0 <= i < |us| && us[i].blobKey == key && us[i].identity == identity
      && forall j :: 0 <= j < i ==> us[j].blobKey != key
  }

  ghost predicate EverSelf(us: seq<ObservedBlob>, key: string) {
    exists i :: 0 <= i < |us| && us[i].blobKey == key && us[i].isSelfDispersed
  }

  ghost predicate HasLatency(us: seq<ObservedBlob>, key: string, i: int) {
    0 <= i < |us| && us[i].blobKey == key && us[i].dispersalLatencyMs != 0
  }

  ghost predicate LastLatency(us: seq<ObservedBlob>, key: string, ms: int) {
    || (ms == 0 && forall i :: !HasLatency(us, key, i))
    || exists i :: HasLatency(us, key, i) && us[i].dispersalLatencyMs == ms
         && forall j :: i < j ==> !HasLatency(us, key, j)
  }

  ghost predicate HasPayment(us: seq<ObservedBlob>, key: string, i: int) {
    0 <= i < |us| && us[i].blobKey == key && us[i].cumulativePayment.Some?
  }

  ghost predicate LastPayment(us: seq<ObservedBlob>, key: string, payment: Option<int>) {
    || (payment == None && forall i :: !HasPayment(us, key, i))
    || exists i :: HasPayment(us, key, i) && us[i].cumulativePayment == payment
         && forall j :: i < j ==> !HasPayment(us, key, j)
  }

  ghost predicate RowTells(us: seq<ObservedBlob>, key: string, row: BlobRow) {
    && FirstIdentity(us, key, row.identity)
    && (row.isSelfDispersed <==> EverSelf(us, key))
    && LastLatency(us, key, row.dispersalLatencyMs)
    && LastPayment(us, key, row.cumulativePayment)
  }

  /** Older upserts seen through one more upsert. */
  lemma Extends(us: seq<ObservedBlob>, b: ObservedBlob, key: string)
    ensures var vs := us + [b];
      && (Mentions(vs, key) <==> Mentions(us, key) || b.blobKey == key)
      && (EverSelf(vs, key) <==> EverSelf(us, key) || (b.blobKey == key && b.isSelfDispersed))
      && (forall i :: HasLatency(vs, key, i) <==>
            HasLatency(us, key, i) || (i == |us| && b.blobKey == key && b.dispersalLatencyMs != 0))
      && (forall i :: HasPayment(vs, key, i) <==>
            HasPayment(us, key, i) || (i == |us| && b.blobKey == key && b.cumulativePayment.Some?))
  {
    var vs := us + [b];
    assert vs[|us|] == b;
    assert forall i :: 0 <= i < |us| ==> vs[i] == us[i];
    if Mentions(us, key) {
      var i :| 0 <= i < |us| && us[i].blobKey == key;
      assert vs[i].blobKey == key;
    }
    if EverSelf(us, key) {
      var i :| 0 <= i < |us| && us[i].blobKey == key && us[i].isSelfDispersed;
      assert vs[i].isSelfDispersed;
    }
  }

  lemma RowTellsSnoc(us: seq<ObservedBlob>, b: ObservedBlob, key: string, table: Blobs)
    requires key in table <==> Mentions(us, key)
    requires key in table ==> RowTells(us, key, table[key])
    ensures key in Upsert(table, b) <==> Mentions(us + [b], key)
    ensures key in Upsert(table, b) ==> RowTells(us + [b], key, Upsert(table, b)[key])
  {
    var vs := us + [b];
    Extends(us, b, key);
    if key in Upsert(table, b) {
      var row := Upsert(table, b)[key];
      FirstIdentitySnoc(us, b, key, row.identity);
      LatencySnoc(us, b, key, row.dispersalLatencyMs);
      PaymentSnoc(us, b, key, row.cumulativePayment);
    }
  }

  lemma FirstIdentitySnoc(us: seq<ObservedBlob>, b: ObservedBlob, key: string, identity: BlobIdentity)
    requires FirstIdentity(us, key, identity) || (!Mentions(us, key) && b.blobKey == key && b.identity == identity)
    ensures FirstIdentity(us + [b], key, identity)
  {
    var vs := us + [b];
    if FirstIdentity(us, key, identity) {
      var i :| 0 <= i < |us| && us[i].blobKey == key && us[i].identity == identity
        && forall j :: 0 <= j < i ==> us[j].blobKey != key;
      assert vs[i].blobKey == key && vs[i].identity == identity;
    } else {
      assert vs[|us|].blobKey == key && vs[|us|].identity == identity;
      assert forall j :: 0 <= j < |us| ==> vs[j].blobKey != key;
    }
  }

  lemma LatencySnoc(us: seq<ObservedBlob>, b: ObservedBlob, key: string, ms: int)
    requires
      if b.blobKey == key && b.dispersalLatencyMs != 0 then ms == b.dispersalLatencyMs
      else LastLatency(us, key, ms) || (!Mentions(us, key) && ms == 0)
    ensures LastLatency(us + [b], key, ms)
  {
    var vs := us + [b];
    Extends(us, b, key);
    if b.blobKey == key && b.dispersalLatencyMs != 0 {
      assert HasLatency(vs, key, |us|);
    } else if exists i :: HasLatency(us, key, i) {
      var i :| HasLatency(us, key, i) && us[i].dispersalLatencyMs == ms && forall j :: i < j ==> !HasLatency(us, key, j);
      assert HasLatency(vs, key, i) && vs[i] == us[i];
    }
  }

  lemma PaymentSnoc(us: seq<ObservedBlob>, b: ObservedBlob, key: string, payment: Option<int>)
    requires
      if b.blobKey == key && b.cumulativePayment.Some? then payment == b.cumulativePayment
      else LastPayment(us, key, payment) || (!Mentions(us, key) && payment == None)
    ensures LastPayment(us + [b], key, payment)
  {
    var vs := us + [b];
    Extends(us, b, key);
    if b.blobKey == key && b.cumulativePayment.Some? {
      assert HasPayment(vs, key, |us|);
    } else if exists i :: HasPayment(us, key, i) {
      var i :| HasPayment(us, key, i) && us[i].cumulativePayment == payment && forall j :: i < j ==> !HasPayment(us, key, j);
      assert HasPayment(vs, key, i) && vs[i] == us[i];
    }
  }

  /** After any history of upserts, the row of a key is what the history says, column by column. */
  lemma {:induction false} RowIsHistory(us: seq<ObservedBlob>, key: string)
    ensures key in UpsertAll(us) <==> Mentions(us, key)
    ensures key in UpsertAll(us) ==> RowTells(us, key, UpsertAll(us)[key])
  {
    if |us| > 0 {
      var front, b := us[..|us| - 1], us[|us| - 1];
      RowIsHistory(front, key);
      RowTellsSnoc(front, b, key, UpsertAll(front));
      assert us == front + [b];
    }
  }

  // ---------------------------------------------------------------- order of the two writers

  /** All latencies ever written for the key agree, and so do all payments. */
  ghost predicate Agreeing(us: seq<ObservedBlob>, key: string) {
    && (forall i, j :: HasLatency(us, key, i) && HasLatency(us, key, j) ==>
          us[i].dispersalLatencyMs == us[j].dispersalLatencyMs)
    && (forall i, j :: HasPayment(us, key, i) && HasPayment(us, key, j) ==>
          us[i].cumulativePayment == us[j].cumulativePayment)
  }

  ghost predicate SameColumns(a: BlobRow, b: BlobRow) {
    && a.isSelfDispersed == b.isSelfDispersed
    && a.dispersalLatencyMs == b.dispersalLatencyMs
    && a.cumulativePayment == b.cumulativePayment
  }

  /** No reordering of the history changes the three merged columns. */
  ghost predicate OrderFree(us: seq<ObservedBlob>, key: string) {
    && key in UpsertAll(us)
    && forall vs: seq<ObservedBlob> :: multiset(vs) == multiset(us) ==>
         key in UpsertAll(vs) && SameColumns(UpsertAll(vs)[key], UpsertAll(us)[key])
  }

  lemma SameBagSameElements<T>(a: seq<T>, b: seq<T>, i: int) returns (j: int)
    requires multiset(a) == multiset(b)
    requires 0 <= i < |a|
    ensures 0 <= j < |b| && b[j] == a[i]
  {
    assert a[i] in multiset(b);
    j :| 0 <= j < |b| && b[j] == a[i];
  }

  lemma AgreeingIsOrderFree(us: seq<ObservedBlob>, vs: seq<ObservedBlob>, key: string)
    requires Mentions(us, key) && Agreeing(us, key)
    requires multiset(vs) == multiset(us)
    ensures key in UpsertAll(us) && key in UpsertAll(vs)
    ensures SameColumns(UpsertAll(vs)[key], UpsertAll(us)[key])
  {
    RowIsHistory(us, key);
    RowIsHistory(vs, key);
    var m :| 0 <= m < |us| && us[m].blobKey == key;
    var n := SameBagSameElements(us, vs, m);
    assert Mentions(vs, key);
    SelfAgrees(us, vs, key);
    SelfAgrees(vs, us, key);
    LatencyAgrees(us, vs, key, UpsertAll(us)[key].dispersalLatencyMs, UpsertAll(vs)[key].dispersalLatencyMs);
    PaymentAgrees(us, vs, key, UpsertAll(us)[key].cumulativePayment, UpsertAll(vs)[key].cumulativePayment);
  }

  lemma SelfAgrees(us: seq<ObservedBlob>, vs: seq<ObservedBlob>, key: string)
    requires multiset(vs) == multiset(us)
    ensures EverSelf(us, key) ==> EverSelf(vs, key)
  {
    if EverSelf(us, key) {
      var i :| 0 <= i < |us| && us[i].blobKey == key && us[i].isSelfDispersed;
      var j := SameBagSameElements(us, vs, i);
    }
  }

  lemma LatencyTransfers(us: seq<ObservedBlob>, vs: seq<ObservedBlob>, key: string, i: int)
    requires multiset(vs) == multiset(us)
    ensures HasLatency(us, key, i) ==> exists j :: HasLatency(vs, key, j) && vs[j] == us[i]
  {
    if HasLatency(us, key, i) {
      var j := SameBagSameElements(us, vs, i);
      assert HasLatency(vs, key, j);
    }
  }

  lemma LatencyAgrees(us: seq<ObservedBlob>, vs: seq<ObservedBlob>, key: string, a: int, b: int)
    requires Agreeing(us, key) && multiset(vs) == multiset(us)
    requires LastLatency(us, key, a) && LastLatency(vs, key, b)
    ensures a == b
  {
    forall i ensures HasLatency(us, key, i) ==> exists j :: HasLatency(vs, key, j) && vs[j] == us[i] {
      LatencyTransfers(us, vs, key, i);
    }
    forall i ensures HasLatency(vs, key, i) ==> exists j :: HasLatency(us, key, j) && us[j] == vs[i] {
      LatencyTransfers(vs, us, key, i);
    }
  }

  lemma PaymentTransfers(us: seq<ObservedBlob>, vs: seq<ObservedBlob>, key: string, i: int)
    requires multiset(vs) == multiset(us)
    ensures HasPayment(us, key, i) ==> exists j :: HasPayment(vs, key, j) && vs[j] == us[i]
  {
    if HasPayment(us, key, i) {
      var j := SameBagSameElements(us, vs, i);
      assert HasPayment(vs, key, j);
    }
  }

  lemma PaymentAgrees(us: seq<ObservedBlob>, vs: seq<ObservedBlob>, key: string, a: Option<int>, b: Option<int>)
    requires Agreeing(us, key) && multiset(vs) == multiset(us)
    requires LastPayment(us, key, a) && LastPayment(vs, key, b)
    ensures a == b
  {
    forall i ensures HasPayment(us, key, i) ==> exists j :: HasPayment(vs, key, j) && vs[j] == us[i] {
      PaymentTransfers(us, vs, key, i);
    }
    forall i ensures HasPayment(vs, key, i) ==> exists j :: HasPayment(us, key, j) && us[j] == vs[i] {
      PaymentTransfers(vs, us, key, i);
    }
  }

  /** The history with its `i`-th upsert moved to the end. */
  function MovedLast(us: seq<ObservedBlob>, i: nat): seq<ObservedBlob>
    requires i < |us|
  {
    us[..i] + us[i + 1..] + [us[i]]
  }

  lemma MovedLastPermutes(us: seq<ObservedBlob>, i: nat)
    requires i < |us|
    ensures multiset(MovedLast(us, i)) == multiset(us)
  {
    RemoveAt(us, i);
    assert MovedLast(us, i) == Without(us, i) + [us[i]];
  }

  lemma LastWriteWins(us: seq<ObservedBlob>, i: nat, key: string)
    requires i < |us| && us[i].blobKey == key
    ensures key in UpsertAll(MovedLast(us, i))
    ensures us[i].dispersalLatencyMs != 0 ==>
      UpsertAll(MovedLast(us, i))[key].dispersalLatencyMs == us[i].dispersalLatencyMs
    ensures us[i].cumulativePayment.Some? ==>
      UpsertAll(MovedLast(us, i))[key].cumulativePayment == us[i].cumulativePayment
  {
    var moved := MovedLast(us, i);
    assert moved[|moved| - 1] == us[i];
  }

  /**
   * The merged columns do not depend on the order in which the collector's and the write prober's
   * upserts reach the table exactly when the non-zero latencies agree and the payments agree.
   */
  lemma OrderFreeIff(us: seq<ObservedBlob>, key: string)
    requires Mentions(us, key)
    ensures key in UpsertAll(us)
    ensures OrderFree(us, key) <==> Agreeing(us, key)
  {
    RowIsHistory(us, key);
    if Agreeing(us, key) {
      forall vs: seq<ObservedBlob> | multiset(vs) == multiset(us)
        ensures key in UpsertAll(vs) && SameColumns(UpsertAll(vs)[key], UpsertAll(us)[key])
      {
        AgreeingIsOrderFree(us, vs, key);
      }
    }
    if OrderFree(us, key) {
      forall i: nat | i < |us| && us[i].blobKey == key
        ensures us[i].dispersalLatencyMs != 0 ==> us[i].dispersalLatencyMs == UpsertAll(us)[key].dispersalLatencyMs
        ensures us[i].cumulativePayment.Some? ==> us[i].cumulativePayment == UpsertAll(us)[key].cumulativePayment
      {
        MovedLastPermutes(us, i);
        LastWriteWins(us, i, key);
      }
    }
  }

  /** What the collector writes: never self-dispersed, no latency, and a payment unless it is zero. */
  function FromFeed(blobKey: string, identity: BlobIdentity, payment: int): ObservedBlob {
    ObservedBlob(blobKey, identity, false, 0, if payment != 0 then Some(payment) else None)
  }

  /** What the write prober writes after a dispersal of its own. */
  function FromProber(blobKey: string, sizeBytes: int, now: nat, latencyMs: int, payment: int): ObservedBlob {
    ObservedBlob(blobKey, BlobIdentity("", "CONFIRMED", sizeBytes, now, 0, "", "", ""),
                 true, latencyMs, if payment != 0 then Some(payment) else None)
  }

  /** Upserts of the blob `key` that the collector makes. */
  ghost predicate Collects(b: ObservedBlob, key: string, payment: int) {
    b == FromFeed(key, b.identity, payment)
  }

  /** The upsert of the blob `key` that the write prober makes. */
  ghost predicate Probes(b: ObservedBlob, key: string, latencyMs: int, payment: int) {
    b == FromProber(key, b.identity.blobSizeBytes, b.identity.requestedAt, latencyMs, payment)
  }

  /**
   * One prober upsert at position `i` among any number of collector upserts of the same blob, all
   * reporting the blob's own payment: wherever it stands, the row says self-dispersed with the
   * prober's latency.
   */
  lemma ProberAmongCollectors(us: seq<ObservedBlob>, key: string, latencyMs: int, payment: int, i: nat)
    requires i < |us| && Probes(us[i], key, latencyMs, payment)
    requires forall j :: 0 <= j < |us| && j != i ==> Collects(us[j], key, payment)
    ensures key in UpsertAll(us)
    ensures UpsertAll(us)[key].isSelfDispersed
    ensures UpsertAll(us)[key].dispersalLatencyMs == latencyMs
    ensures UpsertAll(us)[key].cumulativePayment == if payment != 0 then Some(payment) else None
  {
    assert us[i].blobKey == key;
    RowIsHistory(us, key);
    assert forall j :: HasLatency(us, key, j) ==> us[j].dispersalLatencyMs == latencyMs;
    assert forall j :: HasPayment(us, key, j) ==> us[j].cumulativePayment == Some(payment);
    if latencyMs != 0 { assert HasLatency(us, key, i); }
    if payment != 0 { assert HasPayment(us, key, i); }
  }

  /**
   * In a history of upserts by the two workers the row is marked as self-dispersed exactly if the
   * prober wrote, and only then can it show a latency.
   */
  lemma FlagMeansProber(us: seq<ObservedBlob>, key: string, latencyMs: int, payment: int)
    requires us != []
    requires forall i :: 0 <= i < |us| ==> Collects(us[i], key, payment) || Probes(us[i], key, latencyMs, payment)
    ensures key in UpsertAll(us)
    ensures UpsertAll(us)[key].isSelfDispersed <==> exists i :: 0 <= i < |us| && Probes(us[i], key, latencyMs, payment)
    ensures !UpsertAll(us)[key].isSelfDispersed ==> UpsertAll(us)[key].dispersalLatencyMs == 0
  {
    assert us[0].blobKey == key;
    RowIsHistory(us, key);
  }

  /** The first of the two workers to write a blob fixes the identity columns. */
  lemma IdentityIsOfFirst(us: seq<ObservedBlob>, key: string, b: BlobIdentity, sizeBytes: int, now: nat, latencyMs: int, payment: int)
    requires us != []
    ensures us[0] == FromFeed(key, b, payment) ==> key in UpsertAll(us) && UpsertAll(us)[key].identity == b
    ensures us[0] == FromProber(key, sizeBytes, now, latencyMs, payment) ==>
      && key in UpsertAll(us)
      && UpsertAll(us)[key].identity.blobStatus == "CONFIRMED" && UpsertAll(us)[key].identity.accountId == ""
      && UpsertAll(us)[key].identity.blobSizeBytes == sizeBytes && UpsertAll(us)[key].identity.requestedAt == now
  {
    RowIsHistory(us, key);
  }
}
