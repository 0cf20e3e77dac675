/**
 * The checks a program runs before a cross-program invocation. The account
 * views must line up with the instruction's metas key by key, and each view
 * must pass the borrow checks a callee with the meta's permission needs,
 * without any borrow being taken. Then the per-account records handed to the
 * invoke syscall are built.
 */
module Cpi {
  import opened Wrappers
  import opened SolanaTypes
  import opened BorrowState
  import opened Accounts
  import opened InstructionView

  /** An instruction to invoke: the callee, its input bytes and its account metas. */
  datatype Instruction = Instruction(programId: Address, data: seq<u8>, accounts: seq<AccountMeta>)

  /** The contents of a not-yet-written slot of the record array. */
  const UNINIT: CpiAccount := CpiAccount(ZERO_ADDRESS, 0, 0, ZERO_ADDRESS, 0, false, false, false)

  /**
   * The check of one view against the meta at the same position: the keys
   * must match, then a writable meta needs both nibbles free and a read-only
   * meta needs room for one more reader in both.
   */
  function CheckAccount(view: AccountView, meta: AccountMeta): (r: Result<(), ProgramError>)
    reads view.raw
    ensures r == Err(InvalidArgument) <==> view.Key() != meta.address
    ensures r.Err? ==> r.error == InvalidArgument || r.error == AccountBorrowFailed
    ensures r.Ok? <==>
      && view.Key() == meta.address
      && (meta.isWritable ==>
            Decode(view.raw.borrowState, DATA_SHIFT).Free() && Decode(view.raw.borrowState, LAMPORTS_SHIFT).Free())
      && (!meta.isWritable ==>
            && !Decode(view.raw.borrowState, DATA_SHIFT).writer
            && Decode(view.raw.borrowState, DATA_SHIFT).readers < MAX_READERS
            && !Decode(view.raw.borrowState, LAMPORTS_SHIFT).writer
            && Decode(view.raw.borrowState, LAMPORTS_SHIFT).readers < MAX_READERS)
  {
    if view.Key() != meta.address then Err(InvalidArgument)
    else if meta.isWritable then
      match view.CheckBorrowMutData()
      case Err(e) => Err(e)
      case Ok(_) => view.CheckBorrowMutLamports()
    else
      match view.CheckBorrowData()
      case Err(e) => Err(e)
      case Ok(_) => view.CheckBorrowLamports()
  }

  /** The records of all the views. */
  ghost function Raws(views: seq<AccountView>): set<Account>
  {
    set i | 0 <= i < |views| :: views[i].raw
  }

  /**
   * The checks of the first `n` positions, in ascending order: the first
   * failing position decides the error, and all pass exactly when each does.
   */
  function Validate(views: seq<AccountView>, metas: seq<AccountMeta>, n: nat): (r: Result<(), ProgramError>)
    requires n <= |views| && n <= |metas|
    reads Raws(views)
    ensures r.Ok? <==> forall k | 0 <= k < n :: CheckAccount(views[k], metas[k]).Ok?
    ensures r.Err? ==> exists k | 0 <= k < n ::
              && CheckAccount(views[k], metas[k]) == r
              && forall j | 0 <= j < k :: CheckAccount(views[j], metas[j]).Ok?
  {
    if n == 0 then Ok(())
    else
      match Validate(views, metas, n - 1)
      case Err(e) => Err(e)
      case Ok(_) => CheckAccount(views[n - 1], metas[n - 1])
  }

  /** A mismatched key at the first position that fails makes the whole validation fail with `InvalidArgument`. */
  lemma {:induction false} FirstMismatchIsInvalidArgument(views: seq<AccountView>, metas: seq<AccountMeta>, n: nat, k: nat)
    requires k < n <= |views| && n <= |metas|
    requires forall j | 0 <= j < k :: CheckAccount(views[j], metas[j]).Ok?
    requires views[k].Key() != metas[k].address
    ensures Validate(views, metas, n) == Err(InvalidArgument)
  {
    if n == k + 1 {
      assert Validate(views, metas, k).Ok?;
    } else {
      FirstMismatchIsInvalidArgument(views, metas, n - 1, k);
    }
  }

  /** When every key matches, a failed validation is a borrow failure. */
  lemma {:induction false} MatchingKeysFailOnBorrow(views: seq<AccountView>, metas: seq<AccountMeta>, n: nat)
    requires n <= |views| && n <= |metas|
    requires forall j | 0 <= j < n :: views[j].Key() == metas[j].address
    ensures Validate(views, metas, n).Err? ==> Validate(views, metas, n).error == AccountBorrowFailed
  {
    if n > 0 {
      MatchingKeysFailOnBorrow(views, metas, n - 1);
    }
  }

  /**
   * `invoke_signed`: too few metas fail before any view is looked at; then
   * each position is checked in order and its record written. The method
   * changes no record: every check only reads the borrow state. On success
   * the result is the record array handed to the syscall.
   */
  method InvokeSigned(instruction: Instruction, accountInfos: seq<AccountView>, signersSeeds: seq<Signer>)
    returns (r: Result<seq<CpiAccount>, ProgramError>)
    ensures |instruction.accounts| < |accountInfos| ==> r == Err(NotEnoughAccountKeys)
    ensures |instruction.accounts| >= |accountInfos| ==>
              (r.Ok? <==> Validate(accountInfos, instruction.accounts, |accountInfos|).Ok?)
    ensures r.Err? && |instruction.accounts| >= |accountInfos| ==>
              r.error == Validate(accountInfos, instruction.accounts, |accountInfos|).error
    ensures r.Ok? ==> |r.value| == |accountInfos|
    ensures r.Ok? ==> forall k | 0 <= k < |accountInfos| :: r.value[k] == CpiAccountFrom(accountInfos[k])
  {
    if |instruction.accounts| < |accountInfos| {
      return Err(NotEnoughAccountKeys);
    }
    var accounts := seq(|accountInfos|, _ => UNINIT);
    for index := 0 to |accountInfos|
      invariant |accounts| == |accountInfos|
      invariant Validate(accountInfos, instruction.accounts, index).Ok?
      invariant forall k | 0 <= k < index :: accounts[k] == CpiAccountFrom(accountInfos[k])
    {
      var accountInfo := accountInfos[index];
      var accountMeta := instruction.accounts[index];
      var check := CheckAccountStep(accountInfo, accountMeta);
      if check.Err? {
        return Err(check.error);
      }
      accounts := accounts[index := CpiAccountFrom(accountInfo)];
    }
    r := Ok(accounts);
  }

  /**
   * `slice_invoke_signed`: too few metas first, then more views than
   * `maxInstructionAccounts` (the runtime's per-instruction account limit),
   * then the same ordered checks as `InvokeSigned`, counting the records
   * written.
   */
  method SliceInvokeSigned(instruction: Instruction, accountInfos: seq<AccountView>, signersSeeds: seq<Signer>,
                           maxInstructionAccounts: nat)
    returns (r: Result<seq<CpiAccount>, ProgramError>)
    ensures |instruction.accounts| < |accountInfos| ==> r == Err(NotEnoughAccountKeys)
    ensures |instruction.accounts| >= |accountInfos| > maxInstructionAccounts ==> r == Err(InvalidArgument)
    ensures |instruction.accounts| >= |accountInfos| && |accountInfos| <= maxInstructionAccounts ==>
              (r.Ok? <==> Validate(accountInfos, instruction.accounts, |accountInfos|).Ok?)
    ensures r.Err? && |instruction.accounts| >= |accountInfos| && |accountInfos| <= maxInstructionAccounts ==>
              r.error == Validate(accountInfos, instruction.accounts, |accountInfos|).error
    ensures r.Ok? ==> |r.value| == |accountInfos|
    ensures r.Ok? ==> forall k | 0 <= k < |accountInfos| :: r.value[k] == CpiAccountFrom(accountInfos[k])
  {
    if |instruction.accounts| < |accountInfos| {
      return Err(NotEnoughAccountKeys);
    }
    if |accountInfos| > maxInstructionAccounts {
      return Err(InvalidArgument);
    }
    var accounts := seq(maxInstructionAccounts, _ => UNINIT);
    var len := 0;
    // The zip of the views with the metas stops at the shorter one, the views.
    while len < |accountInfos| && len < |instruction.accounts|
      invariant len <= |accountInfos| && |accounts| == maxInstructionAccounts
      invariant Validate(accountInfos, instruction.accounts, len).Ok?
      invariant forall k | 0 <= k < len :: accounts[k] == CpiAccountFrom(accountInfos[k])
    {
      var check := CheckAccountStep(accountInfos[len], instruction.accounts[len]);
      if check.Err? {
        return Err(check.error);
      }
      accounts := accounts[len := CpiAccountFrom(accountInfos[len])];
      len := len + 1;
    }
    r := Ok(accounts[..len]);
  }

  /** The loop body shared by both entry points: the key test, then the two borrow checks in the source's order. */
  method CheckAccountStep(accountInfo: AccountView, accountMeta: AccountMeta) returns (r: Result<(), ProgramError>)
    ensures r == CheckAccount(accountInfo, accountMeta)
  {
    if accountInfo.Key() != accountMeta.address {
      return Err(InvalidArgument);
    }
    if accountMeta.isWritable {
      var data := accountInfo.CheckBorrowMutData();
      if data.Err? {
        return Err(data.error);
      }
      r := accountInfo.CheckBorrowMutLamports();
    } else {
      var data := accountInfo.CheckBorrowData();
      if data.Err? {
        return Err(data.error);
      }
      r := accountInfo.CheckBorrowLamports();
    }
  }

  /** Largest return-data size the runtime keeps. */
  const MAX_RETURN_DATA: nat := 1024

  /** Return data read back after an invocation: the program that set it, the buffer and the used size. */
  datatype ReturnData = ReturnData(programId: Address, data: seq<u8>, size: nat)
  {
    /** The bytes the callee set: the first `size` bytes of the buffer. */
    function AsSlice(): (s: seq<u8>)
      requires size <= |data|
      ensures |s| == size && s <= data
    {
      data[..size]
    }
  }

  function Min(a: nat, b: nat): nat
  {
    if a < b then a else b
  }

  /**
   * `get_return_data` once the syscall has filled `buffer` and `programId`
   * and reported `size`: nothing when the size is zero, otherwise the size
   * clamped to the buffer.
   */
  function GetReturnData(size: u64, buffer: seq<u8>, programId: Address): (r: Option<ReturnData>)
    requires |buffer| == MAX_RETURN_DATA
    ensures r.None? <==> size == 0
    ensures r.Some? ==> r.value.programId == programId && r.value.data == buffer
    ensures r.Some? ==> r.value.size <= MAX_RETURN_DATA && (r.value.size == size || r.value.size == MAX_RETURN_DATA)
    ensures r.Some? ==> r.value.size == size || size > MAX_RETURN_DATA
  {
    if size == 0 then None
    else Some(ReturnData(programId, buffer, Min(size, MAX_RETURN_DATA)))
  }

  /** The slice of returned data is the buffer's prefix of the reported size, never longer than the buffer. */
  lemma ReturnDataSlice(size: u64, buffer: seq<u8>, programId: Address)
    requires |buffer| == MAX_RETURN_DATA && size > 0
    ensures GetReturnData(size, buffer, programId).Some?
    ensures var rd := GetReturnData(size, buffer, programId).value;
            rd.size <= |rd.data| && rd.AsSlice() == buffer[..if size < MAX_RETURN_DATA then size else MAX_RETURN_DATA]
  {
  }
}
