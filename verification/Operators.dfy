/** Values exchanged between operator discovery, the operator client and the operator verifier. */
module Operators {
  /** A 32-byte operator ID, read as a big-endian number. */
  newtype OperatorId = x: int | 0 <= x < 0x1_0000000000000000_0000000000000000_0000000000000000_0000000000000000

  /** The first 8 bytes of an ID: operator rows are stored under them, in hexadecimal. */
  newtype OperatorPrefix = x: int | 0 <= x < 0x1_0000000000000000

  const LAST_24_BYTES: int := 0x1_0000000000000000_0000000000000000_0000000000000000

  datatype OperatorInfo = OperatorInfo(id: OperatorId, socket: string)

  /** What one GetChunks call brought back; a timeout or an error is a failed result. */
  datatype ChunkProbeResult = ChunkProbeResult(success: bool, chunksReturned: nat)

  /** One operator to query together with the answer it is going to give. */
  datatype Task = Task(op: OperatorInfo, answer: ChunkProbeResult)

  /** One call of ReportResult. */
  datatype Report = Report(id: OperatorId, success: bool)

  predicate Contributes(r: ChunkProbeResult) {
    r.success && r.chunksReturned > 0
  }

  /** The ID without its last 24 bytes. */
  function Prefix(id: OperatorId): (p: OperatorPrefix)
    ensures var tail := id as int - p as int * LAST_24_BYTES; 0 <= tail < LAST_24_BYTES
  {
    (id as int / LAST_24_BYTES) as OperatorPrefix
  }

  /** Discovery drops operators without a socket, and empty index slots, which read as ID zero. */
  predicate Listable(o: OperatorInfo) {
    o.id != 0 && o.socket != ""
  }

  ghost predicate DistinctIds(ops: seq<OperatorInfo>) {
    forall i, j :: 0 <= i < j < |ops| ==> ops[i].id != ops[j].id
  }
}
