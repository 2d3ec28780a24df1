/** The tables that the workers write, with statements that may fail. */
module Database {
  import opened Common
  import opened Operators
  import opened BlobTable
  import opened EjectionScan

  /** A row of operator_probes; the table is kept in order of probe_time. */
  datatype ProbeRow = ProbeRow(
    blobKey: string,
    blobAgeHours: real,
    operatorId: OperatorPrefix,
    operatorSocket: string,
    success: bool,
    chunksReturned: nat)

  /** A row of the operator retrievals: one recorded recoverability verdict. */
  datatype RetrievalRow = RetrievalRow(
    blobKey: string,
    blobAgeHours: real,
    operatorsTotal: nat,
    operatorsOk: nat,
    chunksCollected: nat,
    chunksRequired: nat,
    decodeSuccess: bool)

  /**
   * Whether a statement takes effect is decided outside the program: the parameter `ok` of every
   * operation carries that decision, and the error the caller sees is its negation.
   */
  class Database {
    var operatorProbes: seq<ProbeRow>
    var operatorRetrievals: seq<RetrievalRow>
    var observedBlobs: map<string, BlobRow>
    var ejectionEvents: map<EventKey, EventRow>
    var indexerCursors: map<string, int>

    constructor ()
      ensures operatorProbes == [] && operatorRetrievals == []
      ensures observedBlobs == map[] && ejectionEvents == map[] && indexerCursors == map[]
    {
      operatorProbes, operatorRetrievals := [], [];
      observedBlobs, ejectionEvents, indexerCursors := map[], map[], map[];
    }

    method InsertOperatorProbe(row: ProbeRow, ok: bool)
      modifies this`operatorProbes
      ensures operatorProbes == if ok then old(operatorProbes) + [row] else old(operatorProbes)
    {
      if ok { operatorProbes := operatorProbes + [row]; }
    }

    method InsertOperatorRetrieval(row: RetrievalRow, ok: bool)
      modifies this`operatorRetrievals
      ensures operatorRetrievals == if ok then old(operatorRetrievals) + [row] else old(operatorRetrievals)
    {
      if ok { operatorRetrievals := operatorRetrievals + [row]; }
    }

    method UpsertBlob(b: ObservedBlob, ok: bool)
      modifies this`observedBlobs
      ensures observedBlobs == if ok then Upsert(old(observedBlobs), b) else old(observedBlobs)
    {
      if ok {
        if b.blobKey in observedBlobs {
          var row := observedBlobs[b.blobKey];
          row := row.(
            isSelfDispersed := b.isSelfDispersed || row.isSelfDispersed,
            dispersalLatencyMs := if b.dispersalLatencyMs != 0 then b.dispersalLatencyMs else row.dispersalLatencyMs,
            cumulativePayment := if b.cumulativePayment.Some? then b.cumulativePayment else row.cumulativePayment);
          observedBlobs := observedBlobs[b.blobKey := row];
        } else {
          observedBlobs := observedBlobs[b.blobKey :=
            BlobRow(b.identity, b.isSelfDispersed, b.dispersalLatencyMs, b.cumulativePayment)];
        }
      }
    }

    /** ON CONFLICT (tx_hash, log_index) DO NOTHING. */
    method InsertEjectionEvent(key: EventKey, row: EventRow, ok: bool)
      modifies this`ejectionEvents
      ensures ejectionEvents == if ok then InsertEvent(old(ejectionEvents), key, row) else old(ejectionEvents)
    {
      if ok && key !in ejectionEvents {
        ejectionEvents := ejectionEvents[key := row];
      }
    }

    /** A cursor that was never stored reads as 0. */
    method GetIndexerCursor(name: string, ok: bool) returns (cursor: Option<int>)
      ensures cursor == if !ok then None else Some(if name in indexerCursors then indexerCursors[name] else 0)
    {
      if !ok { return None; }
      if name !in indexerCursors { return Some(0); }
      return Some(indexerCursors[name]);
    }

    method UpdateIndexerCursor(name: string, lastBlock: int, ok: bool)
      modifies this`indexerCursors
      ensures indexerCursors == if ok then old(indexerCursors)[name := lastBlock] else old(indexerCursors)
    {
      if ok { indexerCursors := indexerCursors[name := lastBlock]; }
    }
  }
}
