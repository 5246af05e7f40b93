/** Values shared by every part of the block store: identifiers, stamps, payloads, tags. */
module Types {
  datatype Option<+T> = None | Some(value: T)

  function Min(a: int, b: int): (m: int)
    ensures m <= a && m <= b && (m == a || m == b)
  {
    if a < b then a else b
  }

  type Byte = x: int | 0 <= x < 256

  const STAMP_SIZE: nat := 4
  const PAYLOAD_SIZE: nat := 4096
  /** stamp[4] | wf[4] | created_at[8] | tag[1] | payload[4096] */
  const BLOCK_SIZE: nat := 4113
  /** 256 to the power of 32. */
  const ID_SPACE: nat := 0x1_0000000000000000_0000000000000000_0000000000000000_0000000000000000

  /** A 32-byte identifier, held as the number its bytes spell in big-endian order.
      Bytes.LexIsNumeric justifies comparing such numbers for bytes.Compare. */
  type ID = x: nat | x < ID_SPACE
  type Stamp = s: seq<Byte> | |s| == STAMP_SIZE witness seq(STAMP_SIZE, _ => 0)
  type Payload = s: seq<Byte> | |s| == PAYLOAD_SIZE witness seq(PAYLOAD_SIZE, _ => 0)
  type Tag = Byte

  /** Leading zero bits of a 32-byte hash. */
  type WorkFactor = x: nat | x <= 256

  const TAG_PHYSICAL: Tag := 0
  const TAG_BLUETOOTH: Tag := 4

  const BLOOM_BITS: nat := 65536
  type SlotIndex = x: nat | x < BLOOM_BITS
  /** Bit position of an id, read at a byte offset, at a work-factor level. */
  type Hash = (ID, nat, nat) -> SlotIndex

  /** The functions whose inner workings do not matter here: SHA-256, the Argon2 work
      factor, the lifetime (in seconds) that a work factor earns, and the Bloom hash. */
  datatype Env = Env(
    computeID: Payload -> ID,
    workFactor: (Stamp, Payload) -> WorkFactor,
    ttl: WorkFactor -> nat,
    slot: Hash)

  /** A traversal key: blocks are listed in (created_at, id) order. */
  datatype TravKey = TravKey(createdAt: nat, id: ID)
  datatype TravVal = TravVal(wf: WorkFactor, tag: Tag)
  type Trav = map<TravKey, TravVal>

  /** What ListBlocks reports about a block. */
  datatype BlockRef = BlockRef(key: TravKey, val: TravVal)
}
