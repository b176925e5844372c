/**
 * The values the syncer stores. Only what the storage layer inspects is
 * modelled structurally; everything else is carried as opaque bytes.
 */
module Types {

  type byte = b: int | 0 <= b < 0x100

  /** Rust's `u32`: checkpoint indices and the latest index. */
  type u32 = n: nat | n < 0x1_0000_0000

  /**
   * A signed (checkpoint, message id) pair. `index` is the embedded
   * `value.index` that selects the object key; `payload` stands for the
   * remaining checkpoint fields, the message id and the signature.
   */
  datatype SignedCheckpointWithMessageId = SignedCheckpointWithMessageId(index: u32, payload: seq<byte>)

  /** Agent metadata, represented by its pretty-printed JSON bytes. */
  datatype AgentMetadata = AgentMetadata(json: seq<byte>)

  /** A signed announcement, represented by its compact JSON bytes. */
  datatype SignedAnnouncement = SignedAnnouncement(json: seq<byte>)

  /** A reorg event, represented by its pretty-printed JSON bytes. */
  datatype ReorgEvent = ReorgEvent(json: seq<byte>)
}
