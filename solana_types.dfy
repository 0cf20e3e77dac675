/**
 * Machine integers, addresses and the program error codes shared by the
 * account, instruction and address crates.
 */
module SolanaTypes {

  type u8 = x: int | 0 <= x < 0x100
  type u16 = x: int | 0 <= x < 0x1_0000
  type u32 = x: int | 0 <= x < 0x1_0000_0000
  type u64 = x: int | 0 <= x < 0x1_0000_0000_0000_0000
  type i64 = x: int | -0x8000_0000_0000_0000 <= x < 0x8000_0000_0000_0000

  /** Number of bytes in an address. */
  const PUBKEY_BYTES: nat := 32

  /** Maximum number of seeds for address derivation. */
  const MAX_SEEDS: nat := 16

  /** A 32-byte account address. */
  type Address = a: seq<u8> | |a| == PUBKEY_BYTES witness ZERO_ADDRESS

  /** The all-zero address (the owner of a closed account). */
  const ZERO_ADDRESS: seq<u8> := seq(32, _ => 0)

  /** The variants of the program error enumeration that the modelled code produces. */
  datatype ProgramError =
    | AccountBorrowFailed
    | InvalidRealloc
    | NotEnoughAccountKeys
    | InvalidArgument
    | InvalidInstructionData
    | UnsupportedSysvar
    | MaxSeedLengthExceeded
    | InvalidSeeds
    | IllegalOwner

  /** Little-endian value of the two bytes `lo`, `hi`. */
  function LeU16(lo: u8, hi: u8): u16
  {
    lo + 256 * hi
  }

  /** The two little-endian bytes of `x`. */
  function U16Bytes(x: u16): (b: seq<u8>)
    ensures |b| == 2 && LeU16(b[0], b[1]) == x
  {
    [x % 256, x / 256]
  }

  /** Reading two bytes back inverts `U16Bytes`, and the other way round. */
  lemma LeU16Bytes(lo: u8, hi: u8)
    ensures U16Bytes(LeU16(lo, hi)) == [lo, hi]
  {
  }
}
