/**
 * The instructions sysvar: the serialized instructions of the transaction
 * being processed, read in place. The layout is
 *
 *   count: u16 | offsets: count x u16 | instructions ... | current index: u16
 *
 * and each instruction at its offset is
 *
 *   n: u16 | n x (flags: u8, key: 32 bytes) | program id: 32 bytes | len: u16 | data: len bytes
 *
 * with every u16 little-endian. The readers do no length checks of their
 * own; their preconditions say how much of the layout they rely on.
 */
module Sysvar {
  import opened Wrappers
  import opened SolanaTypes
  import opened BorrowState
  import opened Accounts
  import opened InstructionView
  import opened Cpi

  /** The address `Sysvar1nstructions1111111111111111111111111`. */
  const INSTRUCTIONS_ID: Address := [
    0x06, 0xa7, 0xd5, 0x17, 0x18, 0x7b, 0xd1, 0x66, 0x35, 0xda, 0xd4, 0x04, 0x55, 0xfd, 0xc2, 0xc0,
    0xc1, 0x24, 0xc6, 0x8f, 0x21, 0x56, 0x75, 0xa5, 0xdb, 0xba, 0xcb, 0x5f, 0x08, 0x00, 0x00, 0x00]

  /** Flag bit of a signer account meta. */
  const IS_SIGNER: u8 := 1
  /** Flag bit of a writable account meta. */
  const IS_WRITABLE: u8 := 2
  /**
   * Size of a serialized account meta: one flags byte and a 32-byte key.
   * Products with it are written with the literal 33 so that they stay
   * linear arithmetic for the solver.
   */
  const META_LEN: nat := 33

  const I64_MIN: int := -0x8000_0000_0000_0000
  const I64_MAX: int := 0x7FFF_FFFF_FFFF_FFFF

  /** The little-endian u16 stored at `at`. */
  function ReadU16(data: seq<u8>, at: nat): (v: u16)
    requires at + 2 <= |data|
    ensures U16Bytes(v) == data[at..at + 2]
  {
    LeU16Bytes(data[at], data[at + 1]);
    LeU16(data[at], data[at + 1])
  }

  /** `i64::saturating_add`: the sum, clamped to the i64 range. */
  function SaturatingAddI64(a: i64, b: i64): (s: i64)
    ensures I64_MIN <= a + b <= I64_MAX ==> s == a + b
    ensures a + b > I64_MAX ==> s == I64_MAX
    ensures a + b < I64_MIN ==> s == I64_MIN
  {
    if a + b > I64_MAX then I64_MAX
    else if a + b < I64_MIN then I64_MIN
    else a + b
  }

  /** The sign of a saturated sum is the sign of the true sum. */
  lemma SaturatingAddSign(a: i64, b: i64)
    ensures SaturatingAddI64(a, b) < 0 <==> a + b < 0
    ensures SaturatingAddI64(a, b) >= 0 ==> SaturatingAddI64(a, b) <= a + b
  {
  }

  /** An account meta as it sits in the sysvar: flags byte, then key. */
  datatype IntrospectedAccountMeta = IntrospectedAccountMeta(flags: u8, key: Address)
  {
    /** Bit 1 of the flags. */
    predicate IsWritable()
    {
      flags / 2 % 2 == 1
    }

    /** Bit 0 of the flags. */
    predicate IsSigner()
    {
      flags % 2 == 1
    }

    /** The meta with this key and these two flags. */
    function ToAccountMeta(): (m: AccountMeta)
      ensures m.address == key
      ensures m.isWritable <==> IsWritable()
      ensures m.isSigner <==> IsSigner()
    {
      New(key, IsWritable(), IsSigner())
    }
  }

  /** `IsWritable` is the source's mask test `flags & IS_WRITABLE != 0`. */
  lemma WritableBit(b: bv8)
    ensures (b & 2 != 0) <==> (b as int) / 2 % 2 == 1
  {
  }

  /** `IsSigner` is the source's mask test `flags & IS_SIGNER != 0`. */
  lemma SignerBit(b: bv8)
    ensures (b & 1 != 0) <==> (b as int) % 2 == 1
  {
  }

  /** The meta whose 33 bytes start at `at`. */
  function MetaAt(data: seq<u8>, at: nat): (m: IntrospectedAccountMeta)
    requires at + META_LEN <= |data|
    ensures [m.flags] + m.key == data[at..at + META_LEN]
  {
    IntrospectedAccountMeta(data[at], data[at + 1..at + META_LEN])
  }

  /** An instruction inside the sysvar buffer, starting at `start`. */
  datatype IntrospectedInstruction = IntrospectedInstruction(data: seq<u8>, start: nat)
  {
    /** Account count, the u16 at the start of the instruction. */
    function NumAccounts(): u16
      requires start + 2 <= |data|
    {
      ReadU16(data, start)
    }

    /** Where the program id sits: after the count and the metas. */
    function ProgramIdAt(): nat
      requires start + 2 <= |data|
    {
      start + 2 + 33 * NumAccounts()
    }

    /** The account metas lie inside the buffer. */
    predicate MetasFit()
    {
      start + 2 <= |data| && ProgramIdAt() <= |data|
    }

    /** The program id and the data length lie inside the buffer. */
    predicate HeaderFits()
    {
      start + 2 <= |data| && ProgramIdAt() + PUBKEY_BYTES + 2 <= |data|
    }

    /** The instruction data lies inside the buffer. */
    predicate DataFits()
    {
      HeaderFits() && ProgramIdAt() + PUBKEY_BYTES + 2 + ReadU16(data, ProgramIdAt() + PUBKEY_BYTES) <= |data|
    }

    /** The meta at `index`, with no count check: it sits at `2 + 33 * index`. */
    function GetAccountMetaAtUnchecked(index: nat): (m: IntrospectedAccountMeta)
      requires start + 2 + 33 * index + META_LEN <= |data|
      ensures [m.flags] + m.key == data[start + 2 + 33 * index..start + 2 + 33 * (index + 1)]
    {
      MetaAt(data, start + 2 + 33 * index)
    }

    /** The meta at `index`, or `InvalidArgument` past the account count. */
    function GetAccountMetaAt(index: nat): (r: Result<IntrospectedAccountMeta, ProgramError>)
      requires MetasFit()
      ensures r.Err? <==> index >= NumAccounts()
      ensures r.Err? ==> r.error == InvalidArgument
      ensures r.Ok? ==> [r.value.flags] + r.value.key
                        == data[start + 2 + 33 * index..start + 2 + 33 * (index + 1)]
    {
      if index >= NumAccounts() then Err(InvalidArgument)
      else Ok(GetAccountMetaAtUnchecked(index))
    }

    /** The 32 bytes after the metas. */
    function GetProgramId(): (id: Address)
      requires HeaderFits()
      ensures id == data[ProgramIdAt()..ProgramIdAt() + PUBKEY_BYTES]
      ensures ProgramIdAt() == start + 2 + 33 * NumAccounts()
    {
      data[ProgramIdAt()..ProgramIdAt() + PUBKEY_BYTES]
    }

    /** The data bytes, whose u16 length follows the program id. */
    function GetInstructionData(): (d: seq<u8>)
      requires DataFits()
      ensures |d| < 0x1_0000 && U16Bytes(|d|) == data[ProgramIdAt() + PUBKEY_BYTES..ProgramIdAt() + PUBKEY_BYTES + 2]
      ensures d == data[ProgramIdAt() + PUBKEY_BYTES + 2..ProgramIdAt() + PUBKEY_BYTES + 2 + |d|]
    {
      var offset := ProgramIdAt() + PUBKEY_BYTES;
      data[offset + 2..offset + 2 + ReadU16(data, offset)]
    }
  }

  /** A view of the sysvar bytes. */
  datatype Instructions = Instructions(data: seq<u8>)
  {
    /** Number of instructions, the u16 in bytes 0-1. */
    function NumInstructions(): u16
      requires |data| >= 2
    {
      ReadU16(data, 0)
    }

    /** The count and the offset table lie inside the buffer. */
    predicate TableFits()
    {
      |data| >= 2 && 2 + 2 * NumInstructions() <= |data|
    }

    /** Index of the executing instruction: the last two bytes, little-endian. */
    function LoadCurrentIndex(): (index: u16)
      requires |data| >= 2
      ensures U16Bytes(index) == data[|data| - 2..]
    {
      ReadU16(data, |data| - 2)
    }

    /** The instruction whose offset is entry `index` of the table, with no count check. */
    function DeserializeInstructionUnchecked(index: nat): (ins: IntrospectedInstruction)
      requires 2 + 2 * index + 2 <= |data|
      ensures ins.data == data
      ensures ins.start < 0x1_0000 && U16Bytes(ins.start) == data[2 + 2 * index..2 + 2 * index + 2]
    {
      IntrospectedInstruction(data, ReadU16(data, 2 + 2 * index))
    }

    /** The instruction at `index`, or `InvalidInstructionData` past the count. */
    function LoadInstructionAt(index: nat): (r: Result<IntrospectedInstruction, ProgramError>)
      requires TableFits()
      ensures r.Err? <==> index >= NumInstructions()
      ensures r.Err? ==> r.error == InvalidInstructionData
      ensures r.Ok? ==> r.value.data == data && r.value.start < 0x1_0000 && U16Bytes(r.value.start) == data[2 + 2 * index..2 + 2 * index + 2]
    {
      if index >= NumInstructions() then Err(InvalidInstructionData)
      else Ok(DeserializeInstructionUnchecked(index))
    }

    /**
     * The instruction `relative` places from the current one. The index is
     * the saturating sum; a negative one is `InvalidInstructionData`.
     */
    function GetInstructionRelative(relative: i64): (r: Result<IntrospectedInstruction, ProgramError>)
      requires TableFits()
      ensures r.Err? <==> LoadCurrentIndex() + relative < 0 || LoadCurrentIndex() + relative >= NumInstructions()
      ensures r.Err? ==> r.error == InvalidInstructionData
      ensures r.Ok? ==> r == LoadInstructionAt(LoadCurrentIndex() + relative)
    {
      var current: i64 := LoadCurrentIndex();
      var index := SaturatingAddI64(current, relative);
      if index < 0 then Err(InvalidInstructionData)
      else LoadInstructionAt(index)
    }
  }

  /**
   * `Instructions::try_from`: only the instructions sysvar account is
   * accepted, and its data is then borrowed shared for as long as the
   * returned guard lives.
   */
  method TryFrom(accountInfo: AccountView) returns (r: Result<(Instructions, Ref<seq<u8>>), ProgramError>)
    requires accountInfo.raw.Valid()
    modifies accountInfo.raw
    ensures accountInfo.raw.Valid()
    ensures accountInfo.Key() != INSTRUCTIONS_ID ==> r == Err(UnsupportedSysvar)
    ensures accountInfo.Key() == INSTRUCTIONS_ID ==>
              (r.Ok? <==> old(accountInfo.CheckBorrowData()).Ok?) && (r.Err? ==> r.error == AccountBorrowFailed)
    ensures r.Err? ==> unchanged(accountInfo.raw)
    ensures r.Ok? ==> fresh(r.value.1) && r.value.1.Live() && r.value.1.state == accountInfo.raw
    ensures r.Ok? ==> r.value.0.data == r.value.1.value == accountInfo.BorrowDataUnchecked()
    ensures r.Ok? ==> accountInfo.raw.borrowState == old(accountInfo.raw.borrowState) + Unit(DATA_SHIFT)
    ensures r.Ok? ==> accountInfo.raw.dataReaders == old(accountInfo.raw.dataReaders) + {r.value.1}
  {
    if accountInfo.Key() != INSTRUCTIONS_ID {
      return Err(UnsupportedSysvar);
    }
    var data := accountInfo.TryBorrowData();
    if data.Err? {
      return Err(data.error);
    }
    r := Ok((Instructions(data.value.value), data.value));
  }

  // ----- The layout the runtime writes, and reading it back -----

  /** The flags byte of a meta. */
  function FlagsOf(m: AccountMeta): u8
  {
    (if m.isSigner then IS_SIGNER else 0) + (if m.isWritable then IS_WRITABLE else 0)
  }

  /** The 33 bytes of one meta. */
  function EncodeMeta(m: AccountMeta): (b: seq<u8>)
    ensures |b| == META_LEN
  {
    [FlagsOf(m)] + m.address
  }

  /** Reading a serialized meta back gives the meta it was made from. */
  lemma MetaRoundTrip(data: seq<u8>, at: nat, m: AccountMeta)
    requires at + META_LEN <= |data| && data[at..at + META_LEN] == EncodeMeta(m)
    ensures MetaAt(data, at).ToAccountMeta() == m
  {
    var read := MetaAt(data, at);
    assert [read.flags] + read.key == [FlagsOf(m)] + m.address;
    assert read.flags == ([read.flags] + read.key)[0];
    assert read.key == ([read.flags] + read.key)[1..];
  }

  /** The metas, one after the other. */
  function EncodeMetas(ms: seq<AccountMeta>): (b: seq<u8>)
    ensures |b| == 33 * |ms|
  {
    if ms == [] then [] else EncodeMeta(ms[0]) + EncodeMetas(ms[1..])
  }

  /** Meta `i` of a list occupies bytes `[33 * i, 33 * (i + 1))` of its encoding. */
  lemma {:induction false} EncodeMetasAt(ms: seq<AccountMeta>, i: nat)
    requires i < |ms|
    ensures EncodeMetas(ms)[33 * i..33 * (i + 1)] == EncodeMeta(ms[i])
  {
    if i > 0 {
      EncodeMetasAt(ms[1..], i - 1);
      var rest := EncodeMetas(ms[1..]);
      assert EncodeMetas(ms) == EncodeMeta(ms[0]) + rest;
      assert EncodeMetas(ms)[33 * i..33 * (i + 1)] == rest[33 * (i - 1)..33 * i];
    }
  }

  /** Instructions whose counts fit their u16 length fields. */
  predicate Encodable(ins: Instruction)
  {
    |ins.accounts| < 0x1_0000 && |ins.data| < 0x1_0000
  }

  /** One serialized instruction. */
  function EncodeInstruction(ins: Instruction): (b: seq<u8>)
    requires Encodable(ins)
    ensures |b| == 2 + 33 * |ins.accounts| + PUBKEY_BYTES + 2 + |ins.data|
  {
    U16Bytes(|ins.accounts|) + EncodeMetas(ins.accounts) + ins.programId + U16Bytes(|ins.data|) + ins.data
  }

  /** The introspected instruction at `start` reads back as `ins`: every meta, the program id and the data. */
  ghost predicate Describes(view: IntrospectedInstruction, ins: Instruction)
  {
    && view.MetasFit() && view.DataFits()
    && view.NumAccounts() == |ins.accounts|
    && view.GetProgramId() == ins.programId
    && view.GetInstructionData() == ins.data
    && forall k | 0 <= k < |ins.accounts| ::
         view.GetAccountMetaAt(k).Ok? && view.GetAccountMetaAt(k).value.ToAccountMeta() == ins.accounts[k]
  }

  /** A slice of a placed copy is the same slice of the original. */
  lemma {:induction false} SubSlice<T>(data: seq<T>, start: nat, enc: seq<T>, a: nat, b: nat)
    requires start + |enc| <= |data| && data[start..start + |enc|] == enc
    requires a <= b <= |enc|
    ensures data[start + a..start + b] == enc[a..b]
  {
    forall i | 0 <= i < b - a
      ensures data[start + a..start + b][i] == enc[a..b][i]
    {
      assert data[start + a + i] == data[start..start + |enc|][a + i];
    }
  }

  /** The five fields of a serialized instruction, each at its offset. */
  lemma {:induction false} InstructionFields(ins: Instruction)
    requires Encodable(ins)
    ensures var enc := EncodeInstruction(ins);
            var pid := 2 + 33 * |ins.accounts|;
            && enc[..2] == U16Bytes(|ins.accounts|)
            && enc[2..pid] == EncodeMetas(ins.accounts)
            && enc[pid..pid + PUBKEY_BYTES] == ins.programId
            && enc[pid + PUBKEY_BYTES..pid + PUBKEY_BYTES + 2] == U16Bytes(|ins.data|)
            && enc[pid + PUBKEY_BYTES + 2..] == ins.data
  {
    var count := U16Bytes(|ins.accounts|);
    var metas := EncodeMetas(ins.accounts);
    var len := U16Bytes(|ins.data|);
    var pid := 2 + 33 * |ins.accounts|;
    var p1 := count + metas;
    var p2 := p1 + ins.programId;
    var p3 := p2 + len;
    assert EncodeInstruction(ins) == p3 + ins.data;
    assert p3[..pid + PUBKEY_BYTES] == p2;
    assert p2[..pid] == p1;
    assert p1[..2] == count;
  }

  /** Wherever a serialized instruction is placed in a buffer, reading it there gives the instruction back. */
  lemma {:induction false} InstructionRoundTrip(data: seq<u8>, start: nat, ins: Instruction)
    requires PlacedAt(data, start, ins)
    ensures Describes(IntrospectedInstruction(data, start), ins)
  {
    var view := IntrospectedInstruction(data, start);
    HeaderPlaced(data, start, ins);
    forall k | 0 <= k < |ins.accounts|
      ensures view.GetAccountMetaAt(k).Ok? && view.GetAccountMetaAt(k).value.ToAccountMeta() == ins.accounts[k]
    {
      MetaPlaced(data, start, ins, k);
    }
  }

  /** Where a serialized instruction is placed in a buffer: the buffer holds its bytes from `start` on. */
  predicate PlacedAt(data: seq<u8>, start: nat, ins: Instruction)
  {
    && Encodable(ins)
    && start + |EncodeInstruction(ins)| <= |data|
    && data[start..start + |EncodeInstruction(ins)|] == EncodeInstruction(ins)
  }

  /** The account count, program id and data of a placed instruction read back as the instruction's own. */
  lemma {:induction false} HeaderPlaced(data: seq<u8>, start: nat, ins: Instruction)
    requires PlacedAt(data, start, ins)
    ensures var view := IntrospectedInstruction(data, start);
            && view.MetasFit() && view.DataFits()
            && view.NumAccounts() == |ins.accounts|
            && view.GetProgramId() == ins.programId
            && view.GetInstructionData() == ins.data
  {
    CountPlaced(data, start, ins);
    ProgramIdPlaced(data, start, ins);
    DataPlaced(data, start, ins);
  }

  lemma {:induction false} CountPlaced(data: seq<u8>, start: nat, ins: Instruction)
    requires PlacedAt(data, start, ins)
    ensures start + 2 <= |data| && ReadU16(data, start) == |ins.accounts|
  {
    InstructionFields(ins);
    SubSlice(data, start, EncodeInstruction(ins), 0, 2);
    LeU16Bytes(data[start], data[start + 1]);
  }

  lemma {:induction false} ProgramIdPlaced(data: seq<u8>, start: nat, ins: Instruction)
    requires PlacedAt(data, start, ins)
    ensures var pid := start + 2 + 33 * |ins.accounts|;
            pid + PUBKEY_BYTES <= |data| && data[pid..pid + PUBKEY_BYTES] == ins.programId
  {
    var pid := 2 + 33 * |ins.accounts|;
    InstructionFields(ins);
    SubSlice(data, start, EncodeInstruction(ins), pid, pid + PUBKEY_BYTES);
  }

  lemma {:induction false} DataPlaced(data: seq<u8>, start: nat, ins: Instruction)
    requires PlacedAt(data, start, ins)
    ensures var lenAt := start + 2 + 33 * |ins.accounts| + PUBKEY_BYTES;
            && lenAt + 2 + |ins.data| <= |data|
            && ReadU16(data, lenAt) == |ins.data|
            && data[lenAt + 2..lenAt + 2 + |ins.data|] == ins.data
  {
    var enc := EncodeInstruction(ins);
    var lenOff := 2 + 33 * |ins.accounts| + PUBKEY_BYTES;
    InstructionFields(ins);
    SubSlice(data, start, enc, lenOff, lenOff + 2);
    LeU16Bytes(data[start + lenOff], data[start + lenOff + 1]);
    SubSlice(data, start, enc, lenOff + 2, |enc|);
  }

  /** Meta `k` of a placed instruction reads back as `ins.accounts[k]`. */
  lemma {:induction false} MetaPlaced(data: seq<u8>, start: nat, ins: Instruction, k: nat)
    requires PlacedAt(data, start, ins) && k < |ins.accounts|
    ensures MetaAt(data, start + 2 + 33 * k).ToAccountMeta() == ins.accounts[k]
  {
    MetaBytesPlaced(data, start, ins, k);
    MetaRoundTrip(data, start + 2 + 33 * k, ins.accounts[k]);
  }

  /** The bytes of meta `k` of a placed instruction sit at `start + 2 + 33 * k`. */
  lemma {:induction false} MetaBytesPlaced(data: seq<u8>, start: nat, ins: Instruction, k: nat)
    requires PlacedAt(data, start, ins) && k < |ins.accounts|
    ensures var at := start + 2 + 33 * k;
            at + META_LEN <= |data| && data[at..at + META_LEN] == EncodeMeta(ins.accounts[k])
  {
    var enc := EncodeInstruction(ins);
    MetasField(ins);
    EncodeMetasAt(ins.accounts, k);
    SubSlice(enc, 2, EncodeMetas(ins.accounts), 33 * k, 33 * (k + 1));
    SubSlice(data, start, enc, 2 + 33 * k, 2 + 33 * (k + 1));
  }

  /** The metas of a serialized instruction follow its two count bytes. */
  lemma {:induction false} MetasField(ins: Instruction)
    requires Encodable(ins)
    ensures EncodeInstruction(ins)[2..2 + 33 * |ins.accounts|] == EncodeMetas(ins.accounts)
  {
    InstructionFields(ins);
  }

  // ----- The whole sysvar -----

  predicate AllEncodable(instrs: seq<Instruction>)
  {
    forall i | 0 <= i < |instrs| :: Encodable(instrs[i])
  }

  /** The serialized instructions. */
  function Encoded(instrs: seq<Instruction>): seq<seq<u8>>
    requires AllEncodable(instrs)
  {
    seq(|instrs|, i requires 0 <= i < |instrs| => EncodeInstruction(instrs[i]))
  }

  /** The parts, one after the other. */
  function Concat<T>(parts: seq<seq<T>>): seq<T>
  {
    if parts == [] then [] else parts[0] + Concat(parts[1..])
  }

  /** The offset table for parts laid out from `at` on: each entry is where its part starts. */
  function OffsetTable(parts: seq<seq<u8>>, at: nat): (t: seq<u8>)
    requires at + |Concat(parts)| < 0x1_0000
    ensures |t| == 2 * |parts|
  {
    if parts == [] then []
    else U16Bytes(at) + OffsetTable(parts[1..], at + |parts[0]|)
  }

  /** Sysvars whose every offset fits in a u16. */
  predicate SysvarEncodable(instrs: seq<Instruction>)
  {
    AllEncodable(instrs) && 2 + 2 * |instrs| + |Concat(Encoded(instrs))| < 0x1_0000
  }

  /** The sysvar bytes for `instrs` with `current` executing. */
  function EncodeSysvar(instrs: seq<Instruction>, current: u16): (b: seq<u8>)
    requires SysvarEncodable(instrs)
    ensures |b| == 2 + 2 * |instrs| + |Concat(Encoded(instrs))| + 2
  {
    var parts := Encoded(instrs);
    U16Bytes(|instrs|) + OffsetTable(parts, 2 + 2 * |instrs|) + Concat(parts) + U16Bytes(current)
  }

  /** Where instruction `i` starts in the sysvar. */
  function StartOf(instrs: seq<Instruction>, i: nat): nat
    requires AllEncodable(instrs) && i <= |instrs|
  {
    2 + 2 * |instrs| + |Concat(Encoded(instrs)[..i])|
  }

  /** The parts before `i` are the first part, then the parts before `i - 1` in the rest. */
  lemma {:induction false} ConcatStep<T>(parts: seq<seq<T>>, i: nat)
    requires 0 < i <= |parts|
    ensures Concat(parts[..i]) == parts[0] + Concat(parts[1..][..i - 1])
  {
    assert parts[..i][1..] == parts[1..][..i - 1];
  }

  /** Part `i` sits right after the parts before it. */
  lemma {:induction false} ConcatAt<T>(parts: seq<seq<T>>, i: nat)
    requires i < |parts|
    ensures var before := |Concat(parts[..i])|;
            && before + |parts[i]| <= |Concat(parts)|
            && Concat(parts)[before..before + |parts[i]|] == parts[i]
  {
    if i == 0 {
      assert parts[..0] == [];
    } else {
      var rest := parts[1..];
      ConcatStep(parts, i);
      ConcatAt(rest, i - 1);
      var before := |Concat(rest[..i - 1])|;
      SubSlice(Concat(parts), |parts[0]|, Concat(rest), before, before + |parts[i]|);
    }
  }

  /** Entry `i` of the offset table is the start of part `i`. */
  lemma {:induction false} TableAt(parts: seq<seq<u8>>, at: nat, i: nat)
    requires at + |Concat(parts)| < 0x1_0000 && i < |parts|
    ensures at + |Concat(parts[..i])| < 0x1_0000
    ensures OffsetTable(parts, at)[2 * i..2 * i + 2] == U16Bytes(at + |Concat(parts[..i])|)
  {
    if i == 0 {
      assert parts[..0] == [];
    } else {
      var rest := parts[1..];
      ConcatStep(parts, i);
      TableAt(rest, at + |parts[0]|, i - 1);
      SubSlice(OffsetTable(parts, at), 2, OffsetTable(rest, at + |parts[0]|), 2 * (i - 1), 2 * i);
    }
  }

  /** The four parts of a concatenation, each at its offset. */
  lemma {:induction false} Concat4<T>(p: seq<T>, q: seq<T>, r: seq<T>, t: seq<T>)
    ensures var s := p + q + r + t;
            && s[..|p|] == p
            && s[|p|..|p| + |q|] == q
            && s[|p| + |q|..|p| + |q| + |r|] == r
            && s[|p| + |q| + |r|..] == t
  {
    var s := p + q + r + t;
    assert s[..|p| + |q| + |r|] == p + q + r;
    assert (p + q + r)[..|p| + |q|] == p + q;
  }

  /** The four parts of the sysvar, each at its offset. */
  lemma {:induction false} SysvarFields(instrs: seq<Instruction>, current: u16)
    requires SysvarEncodable(instrs)
    ensures var b := EncodeSysvar(instrs, current);
            var n := |instrs|;
            && b[..2] == U16Bytes(n)
            && b[2..2 + 2 * n] == OffsetTable(Encoded(instrs), 2 + 2 * n)
            && b[2 + 2 * n..2 + 2 * n + |Concat(Encoded(instrs))|] == Concat(Encoded(instrs))
            && b[|b| - 2..] == U16Bytes(current)
  {
    var n := |instrs|;
    var parts := Encoded(instrs);
    Concat4(U16Bytes(n), OffsetTable(parts, 2 + 2 * n), Concat(parts), U16Bytes(current));
  }

  /** Two equal byte pairs encode the same u16. */
  lemma U16BytesInjective(x: u16, y: u16)
    requires U16Bytes(x) == U16Bytes(y)
    ensures x == y
  {
    assert LeU16(U16Bytes(x)[0], U16Bytes(x)[1]) == LeU16(U16Bytes(y)[0], U16Bytes(y)[1]);
  }

  /** The count, the current index and the table of a serialized sysvar read back as written. */
  lemma {:induction false} SysvarHeader(instrs: seq<Instruction>, current: u16)
    requires SysvarEncodable(instrs)
    ensures var sv := Instructions(EncodeSysvar(instrs, current));
            sv.TableFits() && sv.NumInstructions() == |instrs| && sv.LoadCurrentIndex() == current
  {
    var sv := Instructions(EncodeSysvar(instrs, current));
    SysvarFields(instrs, current);
    U16BytesInjective(sv.NumInstructions(), |instrs|);
    U16BytesInjective(sv.LoadCurrentIndex(), current);
  }

  /** Entry `i` of a serialized sysvar's offset table holds the start of instruction `i`. */
  lemma {:induction false} TableEntryPlaced(instrs: seq<Instruction>, current: u16, i: nat)
    requires SysvarEncodable(instrs) && i < |instrs|
    ensures var b := EncodeSysvar(instrs, current);
            && StartOf(instrs, i) < 0x1_0000
            && b[2 + 2 * i..2 + 2 * i + 2] == U16Bytes(StartOf(instrs, i))
  {
    var n := |instrs|;
    SysvarFields(instrs, current);
    TableAt(Encoded(instrs), 2 + 2 * n, i);
    SubSlice(EncodeSysvar(instrs, current), 2, OffsetTable(Encoded(instrs), 2 + 2 * n), 2 * i, 2 * i + 2);
  }

  /** Instruction `i` of a serialized sysvar is placed at its start. */
  lemma {:induction false} BodyPlaced(instrs: seq<Instruction>, current: u16, i: nat)
    requires SysvarEncodable(instrs) && i < |instrs|
    ensures PlacedAt(EncodeSysvar(instrs, current), StartOf(instrs, i), instrs[i])
  {
    var n := |instrs|;
    var parts := Encoded(instrs);
    var before := |Concat(parts[..i])|;
    SysvarFields(instrs, current);
    ConcatAt(parts, i);
    SubSlice(EncodeSysvar(instrs, current), 2 + 2 * n, Concat(parts), before, before + |parts[i]|);
  }

  /** Loading instruction `i` of a serialized sysvar finds it at its start and reads it back. */
  lemma {:induction false} LoadPlaced(instrs: seq<Instruction>, current: u16, i: nat)
    requires SysvarEncodable(instrs) && i < |instrs|
    ensures var sv := Instructions(EncodeSysvar(instrs, current));
            && sv.TableFits()
            && sv.LoadInstructionAt(i).Ok?
            && Describes(sv.LoadInstructionAt(i).value, instrs[i])
  {
    var b := EncodeSysvar(instrs, current);
    var sv := Instructions(b);
    SysvarHeader(instrs, current);
    TableEntryPlaced(instrs, current, i);
    var loaded := sv.LoadInstructionAt(i).value;
    U16BytesInjective(loaded.start, StartOf(instrs, i));
    BodyPlaced(instrs, current, i);
    InstructionRoundTrip(b, loaded.start, instrs[i]);
  }

  /**
   * Reading a serialized sysvar gives back what was written: the count, the
   * current index, and every instruction with its metas, program id and data;
   * indices past the count are refused.
   */
  lemma {:induction false} SysvarRoundTrip(instrs: seq<Instruction>, current: u16)
    requires SysvarEncodable(instrs)
    ensures var sv := Instructions(EncodeSysvar(instrs, current));
            && sv.TableFits()
            && sv.NumInstructions() == |instrs|
            && sv.LoadCurrentIndex() == current
            && (forall i: nat | i >= |instrs| :: sv.LoadInstructionAt(i) == Err(InvalidInstructionData))
            && (forall i | 0 <= i < |instrs| ::
                  sv.LoadInstructionAt(i).Ok? && Describes(sv.LoadInstructionAt(i).value, instrs[i]))
  {
    SysvarHeader(instrs, current);
    forall i | 0 <= i < |instrs|
      ensures Instructions(EncodeSysvar(instrs, current)).LoadInstructionAt(i).Ok?
      ensures Describes(Instructions(EncodeSysvar(instrs, current)).LoadInstructionAt(i).value, instrs[i])
    {
      LoadPlaced(instrs, current, i);
    }
  }

  /**
   * In a serialized sysvar, the instruction `relative` places from the
   * current one is found exactly when that position exists, and it is the
   * instruction written there.
   */
  lemma {:induction false} RelativeRoundTrip(instrs: seq<Instruction>, current: u16, relative: i64)
    requires SysvarEncodable(instrs)
    ensures var sv := Instructions(EncodeSysvar(instrs, current));
            var r := sv.GetInstructionRelative(relative);
            && (r.Ok? <==> 0 <= current + relative < |instrs|)
            && (0 <= current + relative < |instrs| ==> r.Ok? && Describes(r.value, instrs[current + relative]))
  {
    if 0 <= current + relative < |instrs| {
      RelativeFound(instrs, current, relative);
    } else {
      SysvarHeader(instrs, current);
    }
  }

  lemma {:induction false} RelativeFound(instrs: seq<Instruction>, current: u16, relative: i64)
    requires SysvarEncodable(instrs) && 0 <= current + relative < |instrs|
    ensures var r := Instructions(EncodeSysvar(instrs, current)).GetInstructionRelative(relative);
            r.Ok? && Describes(r.value, instrs[current + relative])
  {
    var sv := Instructions(EncodeSysvar(instrs, current));
    SysvarHeader(instrs, current);
    RelativeIsLoad(sv, relative);
    LoadPlaced(instrs, current, current + relative);
  }

  /** Inside the range, the relative lookup is the absolute one at the sum. */
  lemma RelativeIsLoad(sv: Instructions, relative: i64)
    requires sv.TableFits() && 0 <= sv.LoadCurrentIndex() + relative < sv.NumInstructions()
    ensures sv.GetInstructionRelative(relative) == sv.LoadInstructionAt(sv.LoadCurrentIndex() + relative)
  {
  }
}
