/**
 * The account record placed by the host in the invocation buffer, the view
 * handles that alias it, and the guards that hold a borrow of its lamports or
 * its data until they are dropped.
 *
 * Every view of one record shares the record's `borrowState` byte. A guard is
 * a token: it is live while it sits in one of the record's ghost guard sets,
 * and `Account.Valid()` ties the size of each set to the count or flag kept in
 * the byte. Moving a guard (`Map`, `FilterMap`) takes the old token out of the
 * set and puts the new one in, so the release obligation is carried exactly
 * once and a moved guard can no longer be dropped.
 */
module Accounts {
  import opened Wrappers
  import opened SolanaTypes
  import opened BorrowState

  /** Maximum number of bytes a program may add to an account during one top-level instruction. */
  const MAX_PERMITTED_DATA_INCREASE: nat := 1024 * 10

  /**
   * Sentinel bit of `originalDataLen` (bit 31): set once the original length
   * has been captured. The field is a 32-bit unsigned value, so the bit is set
   * exactly when the value is at least `SET_LEN_MASK`, clearing it
   * (`& GET_LEN_MASK`) is the remainder modulo `SET_LEN_MASK`, and the cast of
   * the length to 32 bits is the remainder modulo 2^32.
   */
  const SET_LEN_MASK: nat := 0x8000_0000

  /** Data regions stay below the sentinel value, so a captured length never collides with the flag. */
  const SENTINEL_VALUE: nat := SET_LEN_MASK

  predicate Captured(stored: u32)
  {
    stored >= SET_LEN_MASK
  }

  /** `stored & GET_LEN_MASK`: the stored length without the sentinel bit. */
  function StoredLen(stored: u32): nat
  {
    stored % SET_LEN_MASK
  }

  /** `(len as u32) | SET_LEN_MASK`. */
  function WithSentinel(len: nat): u32
  {
    var truncated := len % 0x1_0000_0000;
    if truncated >= SET_LEN_MASK then truncated else truncated + SET_LEN_MASK
  }

  /**
   * The original serialized length used by `realloc`, and the value the
   * field holds afterwards: the stored length when the sentinel is set,
   * otherwise the current length, which is then stored with the sentinel.
   */
  function OriginalLen(stored: u32, currentLen: nat): (r: (nat, u32))
    requires currentLen < SENTINEL_VALUE
    ensures Captured(r.1) && StoredLen(r.1) == r.0 && r.0 < SENTINEL_VALUE
    ensures !Captured(stored) ==> r.0 == currentLen
    ensures Captured(stored) ==> r.1 == stored
  {
    if Captured(stored) then
      (StoredLen(stored), stored)
    else
      (currentLen, WithSentinel(currentLen))
  }

  /** Once captured, later calls reuse the stored original length, whatever the current length is. */
  lemma OriginalLenCapturedOnce(stored: u32, firstLen: nat, laterLen: nat)
    requires firstLen < SENTINEL_VALUE && laterLen < SENTINEL_VALUE
    ensures OriginalLen(OriginalLen(stored, firstLen).1, laterLen) == OriginalLen(stored, firstLen)
  {
  }

  function SaturatingSub(a: nat, b: nat): nat
  {
    if a > b then a - b else 0
  }

  /** The growth check of `realloc`: the increase over the original length is within the ceiling. */
  predicate GrowthAllowed(newLen: nat, originalLen: nat)
    ensures GrowthAllowed(newLen, originalLen) <==> newLen <= originalLen + MAX_PERMITTED_DATA_INCREASE
  {
    SaturatingSub(newLen, originalLen) <= MAX_PERMITTED_DATA_INCREASE
  }

  /** Runtime account record: the fixed header followed by the data bytes. */
  class Account {
    /** Shared borrow state: lamports in the upper nibble, data in the lower one. */
    var borrowState: u8
    const isSigner: u8
    const isWritable: u8
    const executable: u8
    /** Original data length, lazily captured by `realloc` with the sentinel bit set. */
    var originalDataLen: u32
    const key: Address
    var owner: Address
    var lamports: u64
    var dataLen: u64
    /** The serialized data followed by the growth region the host reserves. */
    const data: array<u8>

    /** Live guards, one set per kind of borrow. */
    ghost var lamportReaders: set<object>
    ghost var dataReaders: set<object>
    ghost var lamportWriters: set<object>
    ghost var dataWriters: set<object>

    ghost function Readers(shift: nat): set<object>
      reads this`lamportReaders, this`dataReaders
      requires IsShift(shift)
    {
      if shift == LAMPORTS_SHIFT then lamportReaders else dataReaders
    }

    ghost function Writers(shift: nat): set<object>
      reads this`lamportWriters, this`dataWriters
      requires IsShift(shift)
    {
      if shift == LAMPORTS_SHIFT then lamportWriters else dataWriters
    }

    /** The nibble at `shift` counts exactly the live guards of that kind. */
    ghost predicate GuardsMatch(shift: nat)
      reads this`borrowState, this`lamportReaders, this`dataReaders, this`lamportWriters, this`dataWriters
      requires IsShift(shift)
    {
      Records(borrowState, shift, |Readers(shift)|, |Writers(shift)|)
    }

    /** The data length stays within the original length plus the growth ceiling. */
    ghost predicate GrowthRoom()
      reads this`dataLen, this`originalDataLen
    {
      && dataLen <= data.Length
      && (Captured(originalDataLen) ==> dataLen <= StoredLen(originalDataLen) + MAX_PERMITTED_DATA_INCREASE)
      && if Captured(originalDataLen) then
           StoredLen(originalDataLen) + MAX_PERMITTED_DATA_INCREASE <= data.Length
         else
           dataLen + MAX_PERMITTED_DATA_INCREASE <= data.Length
    }

    ghost predicate Valid()
      reads this
    {
      && data.Length < SENTINEL_VALUE
      && GuardsMatch(LAMPORTS_SHIFT)
      && GuardsMatch(DATA_SHIFT)
      && GrowthRoom()
    }

    /** The header fields other than the borrow state keep their values. */
    twostate predicate HeaderUnchanged()
      reads this
    {
      && old(originalDataLen) == originalDataLen
      && old(owner) == owner
      && old(lamports) == lamports
      && old(dataLen) == dataLen
    }

    twostate predicate WritersUnchanged()
      reads this
    {
      old(lamportWriters) == lamportWriters && old(dataWriters) == dataWriters
    }

    twostate predicate ReadersUnchanged()
      reads this
    {
      old(lamportReaders) == lamportReaders && old(dataReaders) == dataReaders
    }

    /** The record as the host materializes it at entry: no borrows, no captured length. */
    constructor (key: Address, owner: Address, lamports: u64, dataLen: u64,
                 isSigner: u8, isWritable: u8, executable: u8, data: array<u8>)
      requires dataLen + MAX_PERMITTED_DATA_INCREASE <= data.Length < SENTINEL_VALUE
      ensures Valid()
      ensures this.key == key && this.owner == owner && this.lamports == lamports
      ensures this.dataLen == dataLen && this.data == data
      ensures this.isSigner == isSigner && this.isWritable == isWritable && this.executable == executable
      ensures borrowState == 0 && originalDataLen == 0
      ensures lamportReaders == {} && dataReaders == {} && lamportWriters == {} && dataWriters == {}
    {
      this.key, this.owner, this.lamports, this.dataLen := key, owner, lamports, dataLen;
      this.isSigner, this.isWritable, this.executable := isSigner, isWritable, executable;
      this.data := data;
      borrowState, originalDataLen := 0, 0;
      lamportReaders, dataReaders, lamportWriters, dataWriters := {}, {}, {}, {};
    }

    /*
     * The byte updates of the guards, one per nibble: `+= 1 << shift` when a
     * shared borrow is taken, `-= 1 << shift` when it is dropped, `|=` of the
     * write flag when an exclusive borrow is taken and `&=` of the mask when
     * it is dropped. Each records the guard in, or removes it from, the
     * matching guard set and touches nothing else.
     */

    method AddLamportsReader(g: object)
      requires Valid() && g !in lamportReaders
      requires !Decode(borrowState, LAMPORTS_SHIFT).writer && Decode(borrowState, LAMPORTS_SHIFT).readers < MAX_READERS
      modifies this
      ensures Valid() && borrowState == old(borrowState) + Unit(LAMPORTS_SHIFT)
      ensures lamportReaders == old(lamportReaders) + {g} && dataReaders == old(dataReaders)
      ensures WritersUnchanged() && HeaderUnchanged()
    {
      RecordsAddReader(borrowState, LAMPORTS_SHIFT, |lamportReaders|, |dataReaders|, |dataWriters|);
      borrowState := borrowState + Unit(LAMPORTS_SHIFT);
      lamportReaders := lamportReaders + {g};
    }

    method AddDataReader(g: object)
      requires Valid() && g !in dataReaders
      requires !Decode(borrowState, DATA_SHIFT).writer && Decode(borrowState, DATA_SHIFT).readers < MAX_READERS
      modifies this
      ensures Valid() && borrowState == old(borrowState) + Unit(DATA_SHIFT)
      ensures dataReaders == old(dataReaders) + {g} && lamportReaders == old(lamportReaders)
      ensures WritersUnchanged() && HeaderUnchanged()
    {
      RecordsAddReader(borrowState, DATA_SHIFT, |dataReaders|, |lamportReaders|, |lamportWriters|);
      borrowState := borrowState + Unit(DATA_SHIFT);
      dataReaders := dataReaders + {g};
    }

    method RemoveLamportsReader(g: object)
      requires Valid() && g in lamportReaders
      modifies this
      ensures Valid() && borrowState == old(borrowState) - Unit(LAMPORTS_SHIFT)
      ensures lamportReaders == old(lamportReaders) - {g} && dataReaders == old(dataReaders)
      ensures WritersUnchanged() && HeaderUnchanged()
    {
      RecordsRemoveReader(borrowState, LAMPORTS_SHIFT, |lamportReaders|, |lamportWriters|, |dataReaders|, |dataWriters|);
      borrowState := borrowState - Unit(LAMPORTS_SHIFT);
      lamportReaders := lamportReaders - {g};
    }

    method RemoveDataReader(g: object)
      requires Valid() && g in dataReaders
      modifies this
      ensures Valid() && borrowState == old(borrowState) - Unit(DATA_SHIFT)
      ensures dataReaders == old(dataReaders) - {g} && lamportReaders == old(lamportReaders)
      ensures WritersUnchanged() && HeaderUnchanged()
    {
      RecordsRemoveReader(borrowState, DATA_SHIFT, |dataReaders|, |dataWriters|, |lamportReaders|, |lamportWriters|);
      borrowState := borrowState - Unit(DATA_SHIFT);
      dataReaders := dataReaders - {g};
    }

    method SetLamportsWriter(g: object)
      requires Valid() && Decode(borrowState, LAMPORTS_SHIFT).Free()
      modifies this
      ensures Valid() && borrowState == SetFlag(old(borrowState), LAMPORTS_SHIFT)
      ensures lamportWriters == {g} && dataWriters == old(dataWriters)
      ensures ReadersUnchanged() && HeaderUnchanged()
    {
      RecordsSetWriter(borrowState, LAMPORTS_SHIFT, |dataReaders|, |dataWriters|);
      borrowState := SetFlag(borrowState, LAMPORTS_SHIFT);
      lamportWriters := {g};
    }

    method SetDataWriter(g: object)
      requires Valid() && Decode(borrowState, DATA_SHIFT).Free()
      modifies this
      ensures Valid() && borrowState == SetFlag(old(borrowState), DATA_SHIFT)
      ensures dataWriters == {g} && lamportWriters == old(lamportWriters)
      ensures ReadersUnchanged() && HeaderUnchanged()
    {
      RecordsSetWriter(borrowState, DATA_SHIFT, |lamportReaders|, |lamportWriters|);
      borrowState := SetFlag(borrowState, DATA_SHIFT);
      dataWriters := {g};
    }

    method ClearLamportsWriter(g: object)
      requires Valid() && lamportWriters == {g}
      modifies this
      ensures Valid() && borrowState == ClearFlag(old(borrowState), LAMPORTS_MASK)
      ensures lamportWriters == {} && dataWriters == old(dataWriters)
      ensures ReadersUnchanged() && HeaderUnchanged()
    {
      RecordsClearWriter(borrowState, LAMPORTS_MASK, |dataReaders|, |dataWriters|);
      borrowState := ClearFlag(borrowState, LAMPORTS_MASK);
      lamportWriters := {};
    }

    method ClearDataWriter(g: object)
      requires Valid() && dataWriters == {g}
      modifies this
      ensures Valid() && borrowState == ClearFlag(old(borrowState), DATA_MASK)
      ensures dataWriters == {} && lamportWriters == old(lamportWriters)
      ensures ReadersUnchanged() && HeaderUnchanged()
    {
      RecordsClearWriter(borrowState, DATA_MASK, |lamportReaders|, |lamportWriters|);
      borrowState := ClearFlag(borrowState, DATA_MASK);
      dataWriters := {};
    }
  }

  /** A shared borrow of a value in a record; dropping it gives one reader back. */
  class Ref<T> {
    const value: T
    /** The record whose borrow state this guard decrements on drop. */
    const state: Account
    const borrowShift: nat

    ghost predicate Live()
      reads state
    {
      IsShift(borrowShift) && this in state.Readers(borrowShift)
    }

    constructor (value: T, state: Account, borrowShift: nat)
      ensures this.value == value && this.state == state && this.borrowShift == borrowShift
    {
      this.value, this.state, this.borrowShift := value, state, borrowShift;
    }

    /** Moves the borrow onto a guard over `f(value)`; the byte is untouched. */
    method Map<U>(f: T -> U) returns (r: Ref<U>)
      requires state.Valid() && Live()
      modifies state
      ensures state.Valid() && r.Live() && !Live()
      ensures fresh(r) && r.state == state && r.borrowShift == borrowShift && r.value == f(value)
      ensures state.borrowState == old(state.borrowState)
      ensures state.Readers(borrowShift) == old(state.Readers(borrowShift)) - {this} + {r}
      ensures state.Readers(Other(borrowShift)) == old(state.Readers(Other(borrowShift)))
      ensures state.WritersUnchanged() && state.HeaderUnchanged()
    {
      r := new Ref(f(value), state, borrowShift);
      Move(r);
    }

    /**
     * As `Map`, but `f` may decline: then the original guard comes back,
     * still live, and nothing changes.
     */
    method FilterMap<U>(f: T -> Option<U>) returns (r: Result<Ref<U>, Ref<T>>)
      requires state.Valid() && Live()
      modifies state
      ensures state.Valid()
      ensures state.borrowState == old(state.borrowState)
      ensures f(value).None? ==> r == Err(this) && Live() && unchanged(state)
      ensures f(value).Some? ==> r.Ok? && fresh(r.value) && r.value.Live() && !Live()
      ensures f(value).Some? ==> r.value.state == state && r.value.borrowShift == borrowShift && r.value.value == f(value).value
      ensures f(value).Some? ==> state.Readers(borrowShift) == old(state.Readers(borrowShift)) - {this} + {r.value}
      ensures state.Readers(Other(borrowShift)) == old(state.Readers(Other(borrowShift)))
      ensures state.WritersUnchanged() && state.HeaderUnchanged()
    {
      match f(value)
      case None =>
        r := Err(this);
      case Some(u) =>
        var g := new Ref(u, state, borrowShift);
        Move(g);
        r := Ok(g);
    }

    /** Hands this guard's place in the reader set to the fresh guard `g`. */
    method Move(g: object)
      requires state.Valid() && Live() && g !in state.Readers(borrowShift)
      modifies state
      ensures state.Valid() && !Live() && g in state.Readers(borrowShift)
      ensures state.borrowState == old(state.borrowState)
      ensures state.Readers(borrowShift) == old(state.Readers(borrowShift)) - {this} + {g}
      ensures state.Readers(Other(borrowShift)) == old(state.Readers(Other(borrowShift)))
      ensures state.WritersUnchanged() && state.HeaderUnchanged()
    {
      ReplaceKeepsSize(state.Readers(borrowShift), this, g);
      if borrowShift == LAMPORTS_SHIFT {
        state.lamportReaders := state.lamportReaders - {this} + {g};
      } else {
        state.dataReaders := state.dataReaders - {this} + {g};
      }
    }

    /** Releases the borrow: one reader fewer in this guard's nibble, nothing else. */
    method Drop()
      requires state.Valid() && Live()
      modifies state
      ensures state.Valid() && !Live()
      ensures state.borrowState == old(state.borrowState) - Unit(borrowShift)
      ensures state.Readers(borrowShift) == old(state.Readers(borrowShift)) - {this}
      ensures state.Readers(Other(borrowShift)) == old(state.Readers(Other(borrowShift)))
      ensures state.WritersUnchanged() && state.HeaderUnchanged()
    {
      if borrowShift == LAMPORTS_SHIFT {
        state.RemoveLamportsReader(this);
      } else {
        state.RemoveDataReader(this);
      }
    }
  }

  /** An exclusive borrow of a value in a record; dropping it clears the write flag. */
  class RefMut<T> {
    const value: T
    const state: Account
    const borrowMask: u8

    ghost predicate Live()
      reads state
    {
      IsMask(borrowMask) && this in state.Writers(MaskShift(borrowMask))
    }

    constructor (value: T, state: Account, borrowMask: u8)
      ensures this.value == value && this.state == state && this.borrowMask == borrowMask
    {
      this.value, this.state, this.borrowMask := value, state, borrowMask;
    }

    /** Moves the borrow onto a guard over `f(value)`; the byte is untouched. */
    method Map<U>(f: T -> U) returns (r: RefMut<U>)
      requires state.Valid() && Live()
      modifies state
      ensures state.Valid() && r.Live() && !Live()
      ensures fresh(r) && r.state == state && r.borrowMask == borrowMask && r.value == f(value)
      ensures state.borrowState == old(state.borrowState)
      ensures state.Writers(MaskShift(borrowMask)) == {r}
      ensures state.Writers(Other(MaskShift(borrowMask))) == old(state.Writers(Other(MaskShift(borrowMask))))
      ensures state.ReadersUnchanged() && state.HeaderUnchanged()
    {
      r := new RefMut(f(value), state, borrowMask);
      Move(r);
    }

    /**
     * As `Map`, but `f` may decline: then the original guard comes back,
     * still live, and nothing changes.
     */
    method FilterMap<U>(f: T -> Option<U>) returns (r: Result<RefMut<U>, RefMut<T>>)
      requires state.Valid() && Live()
      modifies state
      ensures state.Valid()
      ensures state.borrowState == old(state.borrowState)
      ensures f(value).None? ==> r == Err(this) && Live() && unchanged(state)
      ensures f(value).Some? ==> r.Ok? && fresh(r.value) && r.value.Live() && !Live()
      ensures f(value).Some? ==> r.value.state == state && r.value.borrowMask == borrowMask && r.value.value == f(value).value
      ensures f(value).Some? ==> state.Writers(MaskShift(borrowMask)) == {r.value}
      ensures state.Writers(Other(MaskShift(borrowMask))) == old(state.Writers(Other(MaskShift(borrowMask))))
      ensures state.ReadersUnchanged() && state.HeaderUnchanged()
    {
      match f(value)
      case None =>
        r := Err(this);
      case Some(u) =>
        var g := new RefMut(u, state, borrowMask);
        Move(g);
        r := Ok(g);
    }

    /** Hands this guard's place as the writer to the fresh guard `g`. */
    method Move(g: object)
      requires state.Valid() && Live() && g != this
      modifies state
      ensures state.Valid() && !Live() && state.Writers(MaskShift(borrowMask)) == {g}
      ensures state.borrowState == old(state.borrowState)
      ensures state.Writers(Other(MaskShift(borrowMask))) == old(state.Writers(Other(MaskShift(borrowMask))))
      ensures state.ReadersUnchanged() && state.HeaderUnchanged()
    {
      var shift := MaskShift(borrowMask);
      WriterSingleton(state.Writers(shift), this);
      if shift == LAMPORTS_SHIFT {
        state.lamportWriters := {g};
      } else {
        state.dataWriters := {g};
      }
    }

    /** Releases the borrow: the write flag of this guard's nibble is cleared, nothing else. */
    method Drop()
      requires state.Valid() && Live()
      modifies state
      ensures state.Valid() && !Live()
      ensures state.borrowState == ClearFlag(old(state.borrowState), borrowMask)
      ensures state.Writers(MaskShift(borrowMask)) == {}
      ensures state.Writers(Other(MaskShift(borrowMask))) == old(state.Writers(Other(MaskShift(borrowMask))))
      ensures state.ReadersUnchanged() && state.HeaderUnchanged()
    {
      WriterSingleton(state.Writers(MaskShift(borrowMask)), this);
      if borrowMask == LAMPORTS_MASK {
        state.ClearLamportsWriter(this);
      } else {
        state.ClearDataWriter(this);
      }
    }
  }

  /** Swapping a member for a non-member keeps the size of a set. */
  lemma ReplaceKeepsSize(s: set<object>, x: object, y: object)
    requires x in s && y !in s
    ensures |s - {x} + {y}| == |s|
  {
  }

  /** A set of at most one element that holds `x` is `{x}`. */
  lemma WriterSingleton(s: set<object>, x: object)
    requires x in s && |s| <= 1
    ensures s == {x}
  {
    assert |s - {x}| == |s| - 1;
    assert s - {x} == {};
    assert s == (s - {x}) + {x};
  }

  /** A handle on a record; handles holding the same record alias it. */
  datatype AccountView = AccountView(raw: Account)
  {
    function Key(): Address
    {
      raw.key
    }

    /** The owner; a value read before `Assign` is stale afterwards. */
    function Owner(): Address
      reads raw
    {
      raw.owner
    }

    predicate IsSigner()
    {
      raw.isSigner != 0
    }

    predicate IsWritable()
    {
      raw.isWritable != 0
    }

    predicate Executable()
    {
      raw.executable != 0
    }

    function DataLen(): u64
      reads raw
    {
      raw.dataLen
    }

    function Lamports(): u64
      reads raw
    {
      raw.lamports
    }

    predicate DataIsEmpty()
      reads raw
      ensures DataIsEmpty() <==> DataLen() == 0
    {
      DataLen() == 0
    }

    predicate IsOwnedBy(program: Address)
      reads raw
      ensures IsOwnedBy(program) <==> raw.owner == program
    {
      raw.owner == program
    }

    /** The data bytes, read without consulting or changing the borrow state. */
    function BorrowDataUnchecked(): (d: seq<u8>)
      reads raw, raw.data
      requires raw.dataLen <= raw.data.Length
      ensures |d| == DataLen()
      ensures forall i | 0 <= i < |d| :: d[i] == raw.data[i]
    {
      raw.data[..raw.dataLen]
    }

    /** Overwrites the owner; nothing else in the record changes. */
    method Assign(newOwner: Address)
      modifies raw
      ensures IsOwnedBy(newOwner) && Owner() == newOwner
      ensures raw.borrowState == old(raw.borrowState) && raw.originalDataLen == old(raw.originalDataLen)
      ensures raw.lamports == old(raw.lamports) && raw.dataLen == old(raw.dataLen)
      ensures raw.ReadersUnchanged() && raw.WritersUnchanged()
    {
      raw.owner := newOwner;
    }

    /** A shared lamports borrow is possible: no writer and fewer than seven readers. */
    function CheckBorrowLamports(): (r: Result<(), ProgramError>)
      reads raw
      ensures r.Ok? <==> !Decode(raw.borrowState, LAMPORTS_SHIFT).writer
                         && Decode(raw.borrowState, LAMPORTS_SHIFT).readers < MAX_READERS
      ensures r.Err? ==> r.error == AccountBorrowFailed
    {
      var lamports := Decode(raw.borrowState, LAMPORTS_SHIFT);
      if lamports.writer then Err(AccountBorrowFailed)
      else if lamports.readers == MAX_READERS then Err(AccountBorrowFailed)
      else Ok(())
    }

    /** An exclusive lamports borrow is possible: the lamports nibble is free. */
    function CheckBorrowMutLamports(): (r: Result<(), ProgramError>)
      reads raw
      ensures r.Ok? <==> Decode(raw.borrowState, LAMPORTS_SHIFT).Free()
      ensures r.Err? ==> r.error == AccountBorrowFailed
    {
      if !Decode(raw.borrowState, LAMPORTS_SHIFT).Free() then Err(AccountBorrowFailed) else Ok(())
    }

    /** A shared data borrow is possible: no writer and fewer than seven readers. */
    function CheckBorrowData(): (r: Result<(), ProgramError>)
      reads raw
      ensures r.Ok? <==> !Decode(raw.borrowState, DATA_SHIFT).writer
                         && Decode(raw.borrowState, DATA_SHIFT).readers < MAX_READERS
      ensures r.Err? ==> r.error == AccountBorrowFailed
    {
      var data := Decode(raw.borrowState, DATA_SHIFT);
      if data.writer then Err(AccountBorrowFailed)
      else if data.readers == MAX_READERS then Err(AccountBorrowFailed)
      else Ok(())
    }

    /** An exclusive data borrow is possible: the data nibble is free. */
    function CheckBorrowMutData(): (r: Result<(), ProgramError>)
      reads raw
      ensures r.Ok? <==> Decode(raw.borrowState, DATA_SHIFT).Free()
      ensures r.Err? ==> r.error == AccountBorrowFailed
    {
      if !Decode(raw.borrowState, DATA_SHIFT).Free() then Err(AccountBorrowFailed) else Ok(())
    }

    method TryBorrowLamports() returns (r: Result<Ref<u64>, ProgramError>)
      requires raw.Valid()
      modifies raw
      ensures raw.Valid()
      ensures r.Ok? <==> old(CheckBorrowLamports()).Ok?
      ensures r.Err? ==> r.error == AccountBorrowFailed && unchanged(raw)
      ensures r.Ok? ==> fresh(r.value) && r.value.Live()
      ensures r.Ok? ==> r.value.state == raw && r.value.borrowShift == LAMPORTS_SHIFT && r.value.value == raw.lamports
      ensures r.Ok? ==> raw.borrowState == old(raw.borrowState) + Unit(LAMPORTS_SHIFT)
      ensures r.Ok? ==> Decode(raw.borrowState, LAMPORTS_SHIFT)
                        == SubState(false, old(Decode(raw.borrowState, LAMPORTS_SHIFT)).readers + 1)
      ensures r.Ok? ==> Decode(raw.borrowState, DATA_SHIFT) == old(Decode(raw.borrowState, DATA_SHIFT))
      ensures r.Ok? ==> raw.lamportReaders == old(raw.lamportReaders) + {r.value}
      ensures raw.dataReaders == old(raw.dataReaders) && raw.WritersUnchanged() && raw.HeaderUnchanged()
    {
      var check := CheckBorrowLamports();
      if check.Err? {
        return Err(check.error);
      }
      AddReader(raw.borrowState, LAMPORTS_SHIFT);
      var guard := new Ref(raw.lamports, raw, LAMPORTS_SHIFT);
      raw.AddLamportsReader(guard);
      r := Ok(guard);
    }

    method TryBorrowMutLamports() returns (r: Result<RefMut<u64>, ProgramError>)
      requires raw.Valid()
      modifies raw
      ensures raw.Valid()
      ensures r.Ok? <==> old(CheckBorrowMutLamports()).Ok?
      ensures r.Err? ==> r.error == AccountBorrowFailed && unchanged(raw)
      ensures r.Ok? ==> fresh(r.value) && r.value.Live()
      ensures r.Ok? ==> r.value.state == raw && r.value.borrowMask == LAMPORTS_MASK && r.value.value == raw.lamports
      ensures r.Ok? ==> raw.borrowState == SetFlag(old(raw.borrowState), LAMPORTS_SHIFT)
      ensures r.Ok? ==> Decode(raw.borrowState, LAMPORTS_SHIFT) == SubState(true, 0)
      ensures r.Ok? ==> Decode(raw.borrowState, DATA_SHIFT) == old(Decode(raw.borrowState, DATA_SHIFT))
      ensures r.Ok? ==> raw.lamportWriters == {r.value}
      ensures raw.dataWriters == old(raw.dataWriters) && raw.ReadersUnchanged() && raw.HeaderUnchanged()
    {
      var check := CheckBorrowMutLamports();
      if check.Err? {
        return Err(check.error);
      }
      var guard := new RefMut(raw.lamports, raw, LAMPORTS_MASK);
      raw.SetLamportsWriter(guard);
      r := Ok(guard);
    }

    method TryBorrowData() returns (r: Result<Ref<seq<u8>>, ProgramError>)
      requires raw.Valid()
      modifies raw
      ensures raw.Valid()
      ensures r.Ok? <==> old(CheckBorrowData()).Ok?
      ensures r.Err? ==> r.error == AccountBorrowFailed && unchanged(raw)
      ensures r.Ok? ==> fresh(r.value) && r.value.Live()
      ensures r.Ok? ==> r.value.state == raw && r.value.borrowShift == DATA_SHIFT && r.value.value == BorrowDataUnchecked()
      ensures r.Ok? ==> raw.borrowState == old(raw.borrowState) + Unit(DATA_SHIFT)
      ensures r.Ok? ==> Decode(raw.borrowState, DATA_SHIFT)
                        == SubState(false, old(Decode(raw.borrowState, DATA_SHIFT)).readers + 1)
      ensures r.Ok? ==> Decode(raw.borrowState, LAMPORTS_SHIFT) == old(Decode(raw.borrowState, LAMPORTS_SHIFT))
      ensures r.Ok? ==> raw.dataReaders == old(raw.dataReaders) + {r.value}
      ensures raw.lamportReaders == old(raw.lamportReaders) && raw.WritersUnchanged() && raw.HeaderUnchanged()
    {
      var check := CheckBorrowData();
      if check.Err? {
        return Err(check.error);
      }
      AddReader(raw.borrowState, DATA_SHIFT);
      var guard := new Ref(raw.data[..raw.dataLen], raw, DATA_SHIFT);
      raw.AddDataReader(guard);
      r := Ok(guard);
    }

    method TryBorrowMutData() returns (r: Result<RefMut<seq<u8>>, ProgramError>)
      requires raw.Valid()
      modifies raw
      ensures raw.Valid()
      ensures r.Ok? <==> old(CheckBorrowMutData()).Ok?
      ensures r.Err? ==> r.error == AccountBorrowFailed && unchanged(raw)
      ensures r.Ok? ==> fresh(r.value) && r.value.Live()
      ensures r.Ok? ==> r.value.state == raw && r.value.borrowMask == DATA_MASK && r.value.value == BorrowDataUnchecked()
      ensures r.Ok? ==> raw.borrowState == SetFlag(old(raw.borrowState), DATA_SHIFT)
      ensures r.Ok? ==> Decode(raw.borrowState, DATA_SHIFT) == SubState(true, 0)
      ensures r.Ok? ==> Decode(raw.borrowState, LAMPORTS_SHIFT) == old(Decode(raw.borrowState, LAMPORTS_SHIFT))
      ensures r.Ok? ==> raw.dataWriters == {r.value}
      ensures raw.lamportWriters == old(raw.lamportWriters) && raw.ReadersUnchanged() && raw.HeaderUnchanged()
    {
      var check := CheckBorrowMutData();
      if check.Err? {
        return Err(check.error);
      }
      var guard := new RefMut(raw.data[..raw.dataLen], raw, DATA_MASK);
      raw.SetDataWriter(guard);
      r := Ok(guard);
    }

    /**
     * Resizes the data. The exclusive data borrow taken first rejects the
     * call while any data guard is live; it is released on every return.
     */
    method Realloc(newLen: u64, zeroInit: bool) returns (r: Result<(), ProgramError>)
      requires raw.Valid()
      modifies raw, raw.data
      ensures raw.Valid()
      ensures raw.borrowState == old(raw.borrowState) && raw.ReadersUnchanged() && raw.WritersUnchanged()
      ensures raw.owner == old(raw.owner) && raw.lamports == old(raw.lamports)
      ensures r == Err(AccountBorrowFailed) <==> !old(Decode(raw.borrowState, DATA_SHIFT)).Free()
      ensures r == Err(AccountBorrowFailed) ==> unchanged(raw) && unchanged(raw.data)
      ensures r.Ok? || r == Err(AccountBorrowFailed) || r == Err(InvalidRealloc)
      ensures old(Decode(raw.borrowState, DATA_SHIFT)).Free() && newLen == old(raw.dataLen)
              ==> r == Ok(()) && raw.dataLen == old(raw.dataLen)
                  && raw.originalDataLen == old(raw.originalDataLen) && unchanged(raw.data)
      ensures old(Decode(raw.borrowState, DATA_SHIFT)).Free() && newLen != old(raw.dataLen)
              ==> raw.originalDataLen == OriginalLen(old(raw.originalDataLen), old(raw.dataLen)).1
                  && (r.Ok? <==> GrowthAllowed(newLen, OriginalLen(old(raw.originalDataLen), old(raw.dataLen)).0))
      ensures r == Err(InvalidRealloc) ==> raw.dataLen == old(raw.dataLen) && unchanged(raw.data)
      ensures r.Ok? ==> raw.dataLen == newLen
      ensures r.Ok? ==> forall i | 0 <= i < raw.data.Length ::
                          raw.data[i] == if zeroInit && old(raw.dataLen) <= i < newLen then 0 else old(raw.data[i])
    {
      ghost var writersBefore := raw.dataWriters;
      assert old(Decode(raw.borrowState, DATA_SHIFT)).Free() ==> writersBefore == {};
      var acquired := TryBorrowMutData();
      if acquired.Err? {
        return Err(acquired.error);
      }
      var guard := acquired.value;
      var currentLen := |guard.value|;

      if newLen == currentLen {
        guard.Drop();
        assert raw.dataWriters == writersBefore;
        return Ok(());
      }

      var (originalLen, stored) := OriginalLen(raw.originalDataLen, currentLen);
      raw.originalDataLen := stored;

      if !GrowthAllowed(newLen, originalLen) {
        guard.Drop();
        return Err(InvalidRealloc);
      }

      raw.dataLen := newLen;

      if zeroInit {
        forall i | currentLen <= i < newLen {
          raw.data[i] := 0;
        }
      }

      guard.Drop();
      r := Ok(());
    }

    /**
     * Zeroes owner, lamports and data length once no data guard is live.
     * The data bytes, the key, the flags and the borrow state are kept.
     */
    method Close() returns (r: Result<(), ProgramError>)
      requires raw.Valid()
      modifies raw
      ensures raw.Valid()
      ensures r.Ok? <==> old(CheckBorrowMutData()).Ok?
      ensures r.Err? ==> r.error == AccountBorrowFailed && unchanged(raw)
      ensures r.Ok? ==> Owner() == ZERO_ADDRESS && Lamports() == 0 && DataLen() == 0
      ensures raw.borrowState == old(raw.borrowState) && raw.originalDataLen == old(raw.originalDataLen)
      ensures raw.ReadersUnchanged() && raw.WritersUnchanged()
    {
      var check := CheckBorrowMutData();
      if check.Err? {
        return Err(check.error);
      }
      CloseUnchecked();
      r := Ok(());
    }

    /** Zeroes owner, lamports and data length without consulting the borrow state. */
    method CloseUnchecked()
      requires raw.Valid()
      modifies raw
      ensures raw.Valid()
      ensures Owner() == ZERO_ADDRESS && Lamports() == 0 && DataLen() == 0 && DataIsEmpty()
      ensures raw.borrowState == old(raw.borrowState) && raw.originalDataLen == old(raw.originalDataLen)
      ensures raw.ReadersUnchanged() && raw.WritersUnchanged()
    {
      raw.owner, raw.lamports, raw.dataLen := ZERO_ADDRESS, 0, 0;
    }
  }

  /** Two handles on one record read the same header, whichever of them is asked. */
  lemma AliasedViewsAgree(v: AccountView, w: AccountView, program: Address)
    requires v.raw == w.raw
    ensures v.Key() == w.Key() && v.Owner() == w.Owner() && v.Lamports() == w.Lamports()
    ensures v.IsSigner() == w.IsSigner() && v.IsWritable() == w.IsWritable() && v.Executable() == w.Executable()
    ensures v.DataLen() == w.DataLen() && v.DataIsEmpty() == w.DataIsEmpty()
    ensures v.IsOwnedBy(program) == w.IsOwnedBy(program)
  {
  }

  /** The data is empty exactly when the unchecked data slice has no bytes. */
  lemma DataIsEmptyIffNoBytes(v: AccountView)
    requires v.raw.dataLen <= v.raw.data.Length
    ensures v.DataIsEmpty() <==> v.BorrowDataUnchecked() == []
  {
  }
}
