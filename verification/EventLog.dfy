/** The events transaction lifecycles are recorded as, and their deterministic order. */
module EventLog {
  import opened Prelude
  import opened SchedulerModel

  type BlockHash = nat

  datatype Payload =
    | TxSeen(hash: TxHash)
    | TxFetched(hash: TxHash)
    | TxDecoded(tx: Tx)
    | TxReady(hash: TxHash, sender: Address, nonce: U64)
    | TxBlocked(hash: TxHash, sender: Address, nonce: U64, expectedNonce: Option<U64>)
      // Candidate, opportunity, simulation, assembly and bundle events: no lifecycle effect.
    | Downstream(hash: TxHash)
    | TxReplaced(hash: TxHash, replacedBy: TxHash)
    | TxDropped(hash: TxHash, reason: string)
    | TxConfirmedProvisional(hash: TxHash, blockNumber: U64, blockHash: BlockHash)
    | TxConfirmedFinal(hash: TxHash, blockNumber: U64, blockHash: BlockHash)
    | TxReorged(hash: TxHash, oldBlockHash: BlockHash, newBlockHash: BlockHash)
  {
    function PrimaryHash(): TxHash {
      match this
      case TxDecoded(tx) => tx.hash
      case _ => this.hash
    }
  }

  datatype Envelope = Envelope(seqId: U64, unixMs: int, sourceId: SourceId, payload: Payload)

  datatype OrderKey = OrderKey(seqId: U64, sourceId: SourceId, hash: TxHash)

  function KeyOf(e: Envelope): OrderKey {
    OrderKey(e.seqId, e.sourceId, e.payload.PrimaryHash())
  }

  /** Lexicographic comparison of order keys. */
  predicate KeyLess(a: OrderKey, b: OrderKey) {
    || a.seqId < b.seqId
    || (a.seqId == b.seqId && (a.sourceId < b.sourceId || (a.sourceId == b.sourceId && a.hash < b.hash)))
  }

  predicate Before(a: Envelope, b: Envelope) {
    KeyLess(KeyOf(a), KeyOf(b))
  }

  predicate SameKey(a: Envelope, b: Envelope) {
    KeyOf(a) == KeyOf(b)
  }
}
