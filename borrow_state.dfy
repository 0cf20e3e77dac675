/**
 * The borrow-state byte shared by every view of one account record.
 *
 * The upper nibble tracks lamports borrows and the lower nibble tracks data
 * borrows. Inside a nibble, the top bit is the exclusive (write) flag and the
 * three low bits count the shared (read) borrows, so at most seven readers
 * can coexist.
 *
 * The byte is held as its unsigned value (`u8`). The bit tests and the
 * bit updates applied to it are written here as arithmetic on that value,
 * and the lemmas at the end of the module show, for every `bv8`, that each
 * arithmetic form equals the bit operation it stands for.
 */
module BorrowState {
  import opened SolanaTypes

  /** Shift that selects the lamports nibble. */
  const LAMPORTS_SHIFT: nat := 4

  /** Shift that selects the data nibble. */
  const DATA_SHIFT: nat := 0

  /** AND-mask that clears the lamports write flag. */
  const LAMPORTS_MASK: u8 := 0x7F

  /** AND-mask that clears the data write flag. */
  const DATA_MASK: u8 := 0xF7

  /** Largest number of outstanding shared borrows per nibble. */
  const MAX_READERS: nat := 7

  predicate IsShift(shift: nat)
  {
    shift == LAMPORTS_SHIFT || shift == DATA_SHIFT
  }

  predicate IsMask(mask: u8)
  {
    mask == LAMPORTS_MASK || mask == DATA_MASK
  }

  /** The shift of the other nibble. */
  function Other(shift: nat): (o: nat)
    requires IsShift(shift)
    ensures IsShift(o) && o != shift
  {
    if shift == LAMPORTS_SHIFT then DATA_SHIFT else LAMPORTS_SHIFT
  }

  /** `1 << shift`: one reader in the nibble at `shift`. */
  function Unit(shift: nat): nat
    requires IsShift(shift)
  {
    if shift == LAMPORTS_SHIFT then 0x10 else 0x01
  }

  /** `0b1000 << shift`: the write flag of the nibble at `shift`. */
  function WriteFlag(shift: nat): nat
    requires IsShift(shift)
  {
    if shift == LAMPORTS_SHIFT then 0x80 else 0x08
  }

  /** The nibble whose write flag `mask` clears. */
  function MaskShift(mask: u8): (shift: nat)
    requires IsMask(mask)
    ensures IsShift(shift) && WriteFlag(shift) + mask == 0xFF
  {
    if mask == LAMPORTS_MASK then LAMPORTS_SHIFT else DATA_SHIFT
  }

  /** Decoded view of one nibble. */
  datatype SubState = SubState(writer: bool, readers: nat)
  {
    predicate Free() { !writer && readers == 0 }
  }

  /** The sub-state held by the nibble at `shift`. */
  function Decode(state: u8, shift: nat): (s: SubState)
    requires IsShift(shift)
    ensures s.readers <= MAX_READERS
  {
    var nibble := if shift == LAMPORTS_SHIFT then state / 0x10 else state % 0x10;
    if nibble >= 0x08 then SubState(true, nibble - 0x08) else SubState(false, nibble)
  }

  function NibbleOf(s: SubState): (n: nat)
    requires s.readers <= MAX_READERS
    ensures n < 0x10
  {
    (if s.writer then 0x08 else 0x00) + s.readers
  }

  /** The byte that holds `lamports` in the upper nibble and `data` in the lower one. */
  function Encode(lamports: SubState, data: SubState): u8
    requires lamports.readers <= MAX_READERS && data.readers <= MAX_READERS
  {
    0x10 * NibbleOf(lamports) + NibbleOf(data)
  }

  /** Decoding both nibbles and encoding them again gives back the byte. */
  lemma EncodeDecode(state: u8)
    ensures Encode(Decode(state, LAMPORTS_SHIFT), Decode(state, DATA_SHIFT)) == state
  {
  }

  /** Encoding two sub-states and decoding each nibble gives them back. */
  lemma DecodeEncode(lamports: SubState, data: SubState)
    requires lamports.readers <= MAX_READERS && data.readers <= MAX_READERS
    ensures Decode(Encode(lamports, data), LAMPORTS_SHIFT) == lamports
    ensures Decode(Encode(lamports, data), DATA_SHIFT) == data
  {
    Nibbles(Encode(lamports, data), NibbleOf(lamports), NibbleOf(data));
  }

  /** `state | WriteFlag(shift)`: sets the write flag of the nibble at `shift`. */
  function SetFlag(state: u8, shift: nat): u8
    requires IsShift(shift)
  {
    if Decode(state, shift).writer then state else state + WriteFlag(shift)
  }

  /** `state & mask`: clears the write flag of the nibble `mask` belongs to. */
  function ClearFlag(state: u8, mask: u8): u8
    requires IsMask(mask)
  {
    if Decode(state, MaskShift(mask)).writer then state - WriteFlag(MaskShift(mask)) else state
  }

  /** A byte is determined by its two nibbles. */
  lemma {:induction false} Nibbles(state: int, upper: int, lower: int)
    requires state == 0x10 * upper + lower && 0 <= lower < 0x10
    ensures state / 0x10 == upper && state % 0x10 == lower
  {
  }

  /** Adding `1 << shift` to a byte whose nibble is not write-borrowed and has
      fewer than seven readers adds exactly one reader and touches nothing else. */
  lemma AddReader(state: u8, shift: nat)
    requires IsShift(shift)
    requires !Decode(state, shift).writer && Decode(state, shift).readers < MAX_READERS
    ensures state + Unit(shift) < 0x100
    ensures Decode(state + Unit(shift), shift) == SubState(false, Decode(state, shift).readers + 1)
    ensures Decode(state + Unit(shift), Other(shift)) == Decode(state, Other(shift))
  {
    if shift == LAMPORTS_SHIFT {
      Nibbles(state + 0x10, state / 0x10 + 1, state % 0x10);
    } else {
      Nibbles(state + 0x01, state / 0x10, state % 0x10 + 1);
    }
  }

  /** Subtracting `1 << shift` from a byte whose nibble has a reader removes
      exactly one reader and touches nothing else. */
  lemma RemoveReader(state: u8, shift: nat)
    requires IsShift(shift)
    requires Decode(state, shift).readers > 0
    ensures state - Unit(shift) >= 0
    ensures Decode(state - Unit(shift), shift) == SubState(Decode(state, shift).writer, Decode(state, shift).readers - 1)
    ensures Decode(state - Unit(shift), Other(shift)) == Decode(state, Other(shift))
  {
    if shift == LAMPORTS_SHIFT {
      Nibbles(state - 0x10, state / 0x10 - 1, state % 0x10);
    } else {
      Nibbles(state - 0x01, state / 0x10, state % 0x10 - 1);
    }
  }

  /** Setting the write flag marks the nibble written, keeps its reader count
      and touches nothing else. */
  lemma SetWriter(state: u8, shift: nat)
    requires IsShift(shift)
    ensures Decode(SetFlag(state, shift), shift) == SubState(true, Decode(state, shift).readers)
    ensures Decode(SetFlag(state, shift), Other(shift)) == Decode(state, Other(shift))
  {
    if Decode(state, shift).writer {
    } else if shift == LAMPORTS_SHIFT {
      Nibbles(state + 0x80, state / 0x10 + 0x08, state % 0x10);
    } else {
      Nibbles(state + 0x08, state / 0x10, state % 0x10 + 0x08);
    }
  }

  /** The release mask clears the write flag, keeps the reader count and
      touches nothing else. */
  lemma ClearWriter(state: u8, mask: u8)
    requires IsMask(mask)
    ensures Decode(ClearFlag(state, mask), MaskShift(mask)) == SubState(false, Decode(state, MaskShift(mask)).readers)
    ensures Decode(ClearFlag(state, mask), Other(MaskShift(mask))) == Decode(state, Other(MaskShift(mask)))
  {
    if !Decode(state, MaskShift(mask)).writer {
    } else if mask == LAMPORTS_MASK {
      Nibbles(state - 0x80, state / 0x10 - 0x08, state % 0x10);
    } else {
      Nibbles(state - 0x08, state / 0x10, state % 0x10 - 0x08);
    }
  }

  /**
   * The nibble at `shift` records exactly `readers` shared borrows and
   * `writers` exclusive ones: at most one writer, and never a writer beside
   * readers.
   */
  predicate Records(state: u8, shift: nat, readers: nat, writers: nat)
    requires IsShift(shift)
  {
    var s := Decode(state, shift);
    && readers == s.readers
    && writers == (if s.writer then 1 else 0)
    && (s.writer ==> readers == 0)
  }

  /** One more reader is recorded after `+ (1 << shift)`; the other nibble's record stands. */
  lemma RecordsAddReader(state: u8, shift: nat, readers: nat, otherReaders: nat, otherWriters: nat)
    requires IsShift(shift)
    requires Records(state, shift, readers, 0) && readers < MAX_READERS
    requires Records(state, Other(shift), otherReaders, otherWriters)
    ensures state + Unit(shift) < 0x100
    ensures Records(state + Unit(shift), shift, readers + 1, 0)
    ensures Records(state + Unit(shift), Other(shift), otherReaders, otherWriters)
  {
    AddReader(state, shift);
  }

  /** One reader fewer is recorded after `- (1 << shift)`; the other nibble's record stands. */
  lemma RecordsRemoveReader(state: u8, shift: nat, readers: nat, writers: nat, otherReaders: nat, otherWriters: nat)
    requires IsShift(shift)
    requires Records(state, shift, readers, writers) && readers > 0
    requires Records(state, Other(shift), otherReaders, otherWriters)
    ensures state - Unit(shift) >= 0
    ensures Records(state - Unit(shift), shift, readers - 1, writers)
    ensures Records(state - Unit(shift), Other(shift), otherReaders, otherWriters)
  {
    RemoveReader(state, shift);
  }

  /** A writer is recorded after setting the write flag of a free nibble; the other nibble's record stands. */
  lemma RecordsSetWriter(state: u8, shift: nat, otherReaders: nat, otherWriters: nat)
    requires IsShift(shift)
    requires Records(state, shift, 0, 0)
    requires Records(state, Other(shift), otherReaders, otherWriters)
    ensures Records(SetFlag(state, shift), shift, 0, 1)
    ensures Records(SetFlag(state, shift), Other(shift), otherReaders, otherWriters)
  {
    SetWriter(state, shift);
  }

  /** No borrow is recorded after the release mask clears the writer; the other nibble's record stands. */
  lemma RecordsClearWriter(state: u8, mask: u8, otherReaders: nat, otherWriters: nat)
    requires IsMask(mask)
    requires Records(state, MaskShift(mask), 0, 1)
    requires Records(state, Other(MaskShift(mask)), otherReaders, otherWriters)
    ensures Records(ClearFlag(state, mask), MaskShift(mask), 0, 0)
    ensures Records(ClearFlag(state, mask), Other(MaskShift(mask)), otherReaders, otherWriters)
  {
    ClearWriter(state, mask);
  }

  /*
   * The arithmetic above against the bits of the byte. Each lemma holds for
   * every `bv8` value `b`, read as the unsigned integer `b as int`; the
   * first group states single bit facts, the second lifts them to `Decode`,
   * `SetFlag` and `ClearFlag`.
   */

  lemma UpperBits(b: bv8)
    ensures (b & 0x80 != 0) <==> b as int / 0x10 >= 0x08
    ensures (b & 0x70 == 0x70) <==> b as int / 0x10 == 0x07 || b as int / 0x10 == 0x0F
    ensures (b & 0xF0 != 0) <==> b as int / 0x10 != 0
  {
  }

  lemma LowerFlagBits(b: bv8)
    ensures (b & 0x08 != 0) <==> b as int % 0x10 >= 0x08
    ensures (b & 0x0F != 0) <==> b as int % 0x10 != 0
  {
  }

  lemma LowerCountBits(b: bv8)
    ensures (b & 0x07 == 0x07) <==> b as int % 0x10 == 0x07 || b as int % 0x10 == 0x0F
  {
  }

  lemma OrUpperBits(b: bv8)
    ensures (b | 0x80) as int == if b as int / 0x10 >= 0x08 then b as int else b as int + 0x80
  {
  }

  lemma OrLowerBits(b: bv8)
    ensures (b | 0x08) as int == if b as int % 0x10 >= 0x08 then b as int else b as int + 0x08
  {
  }

  lemma AndUpperBits(b: bv8)
    ensures (b & 0x7F) as int == if b as int / 0x10 >= 0x08 then b as int - 0x80 else b as int
  {
  }

  lemma AndLowerBits(b: bv8)
    ensures (b & 0xF7) as int == if b as int % 0x10 >= 0x08 then b as int - 0x08 else b as int
  {
  }

  lemma StepBits(b: bv8)
    ensures b as int + 0x10 < 0x100 ==> (b + 0x10) as int == b as int + 0x10
    ensures b as int + 0x01 < 0x100 ==> (b + 0x01) as int == b as int + 0x01
    ensures b as int >= 0x10 ==> (b - 0x10) as int == b as int - 0x10
    ensures b as int >= 0x01 ==> (b - 0x01) as int == b as int - 0x01
  {
  }

  /** The lamports tests: bit 7 is the writer, bits 4-6 at `0b111` is the seventh reader,
      and the whole upper nibble is zero exactly when lamports are free. */
  lemma LamportsBits(b: bv8)
    ensures (b & 0x80 != 0) <==> Decode(b as int, LAMPORTS_SHIFT).writer
    ensures (b & 0x70 == 0x70) <==> Decode(b as int, LAMPORTS_SHIFT).readers == MAX_READERS
    ensures (b & 0xF0 != 0) <==> !Decode(b as int, LAMPORTS_SHIFT).Free()
  {
    UpperBits(b);
  }

  /** The data tests: bit 3 is the writer, bits 0-2 at `0b111` is the seventh reader,
      and the whole lower nibble is zero exactly when the data is free. */
  lemma DataBits(b: bv8)
    ensures (b & 0x08 != 0) <==> Decode(b as int, DATA_SHIFT).writer
    ensures (b & 0x07 == 0x07) <==> Decode(b as int, DATA_SHIFT).readers == MAX_READERS
    ensures (b & 0x0F != 0) <==> !Decode(b as int, DATA_SHIFT).Free()
  {
    LowerFlagBits(b);
    LowerCountBits(b);
  }

  /** `|= 0b1000_0000` and `|= 0b0000_1000` are `SetFlag` on the two nibbles. */
  lemma SetFlagBits(b: bv8)
    ensures (b | 0x80) as int == SetFlag(b as int, LAMPORTS_SHIFT)
    ensures (b | 0x08) as int == SetFlag(b as int, DATA_SHIFT)
  {
    OrUpperBits(b);
    OrLowerBits(b);
  }

  /** `&= LAMPORTS_MASK` and `&= DATA_MASK` are `ClearFlag`. */
  lemma ClearFlagBits(b: bv8)
    ensures (b & 0x7F) as int == ClearFlag(b as int, LAMPORTS_MASK)
    ensures (b & 0xF7) as int == ClearFlag(b as int, DATA_MASK)
  {
    assert MaskShift(LAMPORTS_MASK) == LAMPORTS_SHIFT && MaskShift(DATA_MASK) == DATA_SHIFT;
    AndUpperBits(b);
    AndLowerBits(b);
  }

  /** `+= 1 << shift` and `-= 1 << shift` do not wrap while a reader can be added or removed. */
  lemma ReaderStepBits(b: bv8)
    ensures !Decode(b as int, LAMPORTS_SHIFT).writer && Decode(b as int, LAMPORTS_SHIFT).readers < MAX_READERS
            ==> (b + 0x10) as int == b as int + Unit(LAMPORTS_SHIFT)
    ensures !Decode(b as int, DATA_SHIFT).writer && Decode(b as int, DATA_SHIFT).readers < MAX_READERS
            ==> (b + 0x01) as int == b as int + Unit(DATA_SHIFT)
    ensures Decode(b as int, LAMPORTS_SHIFT).readers > 0 ==> (b - 0x10) as int == b as int - Unit(LAMPORTS_SHIFT)
    ensures Decode(b as int, DATA_SHIFT).readers > 0 ==> (b - 0x01) as int == b as int - Unit(DATA_SHIFT)
  {
    StepBits(b);
  }
}
