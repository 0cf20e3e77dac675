# Account borrow tracking, CPI pre-flight checks and instruction introspection

This project is a Dafny model of the on-chain program side of a Solana SDK. It covers six parts:

- **Account records and views** (`account-view/src/lib.rs`).
  - The host writes each account record into the input buffer. Every `AccountView` handle for that record shares one `borrow_state` byte.
  - The upper nibble of the byte tracks lamports borrows and the lower nibble tracks data borrows. In each nibble the top bit is the write flag and the three low bits count readers.
  - The `check_borrow_*` functions test the byte. The `try_borrow_*` functions take a borrow and return a `Ref`/`RefMut` guard, which releases the borrow when dropped.
  - `map`/`filter_map` move a guard's release obligation onto a new guard.
  - `realloc` resizes the data. It stores the original length once, flagged with a sentinel bit, and allows at most 10 KiB of growth over it.
  - `close` and `assign` zero or overwrite header fields.
  - The model (`borrow_state.dfy`, `accounts.dfy`, `account_scenarios.dfy`) is imperative:
    - The record is the class `Accounts.Account`. A view is a datatype holding a reference to it, so two views of one record alias it.
    - Guards are objects. Each live guard sits in one of four ghost guard sets on the record, and `Account.Valid()` ties the size of each set to the count or flag in the byte.
    - A moved guard leaves its set, so a release can happen only once.
    - The byte is held as its unsigned value. Lemmas on `bv8` show that each mask test and each `|=`, `&=`, `+=`, `-=` of the source is the arithmetic the model uses.
- **CPI pre-flight validation** (`instruction-view/src/cpi.rs`, modelled in `cpi.dfy`).
  - `invoke_signed` and `slice_invoke_signed` check the number of metas first. They then check, position by position, that the view's key equals the meta's address and that the borrows the callee needs are available, without taking any of them.
  - They then build the per-account records for the invoke syscall. The loops are methods, proved against the recursive specification `Cpi.Validate`.
  - Return-data retrieval and the signer seed records are modelled too.
- **Instructions sysvar** (`instruction-view/src/sysvar.rs`, modelled in `sysvar.dfy`).
  - These are readers over the serialized instruction list: a u16 count, a u16 offset table, then per instruction a u16 meta count, 33-byte metas, the program id, a u16 data length and the data, followed by the u16 current index.
  - The model also contains a serializer for that layout. Lemmas prove that every reader gives back what was written.
- **Account meta constructors** (`instruction-view/src/lib.rs`, modelled in `instruction_view.dfy`).
- **Address error codes** (`address/src/error.rs`, modelled in `address_error.dfy`): the integer codes of the two error enumerations, their round trips and the conversion into the program error.
- **Public key hasher** (`address/src/hasher.rs`, modelled in `hasher.dfy`).
  - A hasher's value is the 8 key bytes at the builder's window start.
  - Each new builder steps a per-thread window start through `0..=24`.

Integer widths are subset types of `int` (`u8`, `u16`, `u32`, `u64`, `i64`). Casts and saturating arithmetic are written out.

## Model

| member | source | states |
|---|---|---|
| BorrowState.Decode | account-view/src/lib.rs:31-50 | a nibble decodes to a write flag and a reader count of at most 7 |
| BorrowState.EncodeDecode | account-view/src/lib.rs:31-50 | the byte is exactly its two decoded nibbles, encoded again |
| BorrowState.DecodeEncode | account-view/src/lib.rs:31-50 | encoding two sub-states and decoding each nibble gives them back, so the nibbles are independent |
| BorrowState.AddReader | account-view/src/lib.rs:246 | adding `1 << shift` to a nibble with no writer and fewer than 7 readers does not overflow the byte, adds exactly one reader and leaves the other nibble alone |
| BorrowState.RemoveReader | account-view/src/lib.rs:614-621 | subtracting `1 << shift` from a nibble with a reader removes exactly one reader and leaves the other nibble alone |
| BorrowState.SetWriter | account-view/src/lib.rs:265 | setting the write flag marks the nibble written, keeps its count and leaves the other nibble alone |
| BorrowState.ClearWriter | account-view/src/lib.rs:700-705 | the release mask clears only the write flag of its nibble |
| BorrowState.RecordsAddReader | account-view/src/lib.rs:312-328 | after `+ (1 << shift)` the nibble records one more live reader and the other nibble's record stands |
| BorrowState.RecordsRemoveReader | account-view/src/lib.rs:614-621 | after `- (1 << shift)` the nibble records one reader fewer and the other nibble's record stands |
| BorrowState.RecordsSetWriter | account-view/src/lib.rs:332-349 | after setting the flag of a free nibble it records exactly one writer and the other nibble's record stands |
| BorrowState.RecordsClearWriter | account-view/src/lib.rs:700-705 | after the mask clears the writer the nibble records no borrow and the other nibble's record stands |
| BorrowState.UpperBits | account-view/src/lib.rs:283-302 | on every byte, the masks `0x80`, `0x70` and `0xF0` test the upper nibble's value as the model reads it |
| BorrowState.LowerFlagBits | account-view/src/lib.rs:359-378 | on every byte, the masks `0x08` and `0x0F` test the lower nibble's value |
| BorrowState.LowerCountBits | account-view/src/lib.rs:364 | on every byte, `b & 0x07 == 0x07` holds exactly when the lower nibble is 7 or 15 |
| BorrowState.OrUpperBits | account-view/src/lib.rs:265 | bitwise OR of `0x80` adds `0x80` exactly when bit 7 is clear |
| BorrowState.OrLowerBits | account-view/src/lib.rs:338 | bitwise OR of `0x08` adds `0x08` exactly when bit 3 is clear |
| BorrowState.AndUpperBits | account-view/src/lib.rs:623-624 | `b & 0x7F` subtracts `0x80` exactly when bit 7 is set |
| BorrowState.AndLowerBits | account-view/src/lib.rs:626-627 | `b & 0xF7` subtracts `0x08` exactly when bit 3 is set |
| BorrowState.StepBits | account-view/src/lib.rs:246 | `+`/`-` of `0x10` and `0x01` on a byte equal the integer sum or difference whenever that stays in range |
| BorrowState.LamportsBits | account-view/src/lib.rs:279-307 | the lamports tests: bit 7 set iff a writer, bits 4-6 all set iff 7 readers, upper nibble non-zero iff not free |
| BorrowState.DataBits | account-view/src/lib.rs:354-383 | the data tests: bit 3 set iff a writer, bits 0-2 all set iff 7 readers, lower nibble non-zero iff not free |
| BorrowState.SetFlagBits | account-view/src/lib.rs:265 | OR-assigning `0x80` and `0x08` are the model's set-flag on the lamports and data nibbles |
| BorrowState.ClearFlagBits | account-view/src/lib.rs:700-705 | `&= LAMPORTS_MASK` and `&= DATA_MASK` are the model's clear-flag |
| BorrowState.ReaderStepBits | account-view/src/lib.rs:319 | the reader increments and decrements never wrap while a reader can be added or is there to remove |
| Accounts.OriginalLen | account-view/src/lib.rs:412-424 | the original length is the stored value without the sentinel bit when the bit is set; otherwise it is the current length, which is stored with the bit set |
| Accounts.OriginalLenCapturedOnce | account-view/src/lib.rs:412-424 | once captured, every later call reuses the first captured length, whatever the current length is |
| Accounts.GrowthAllowed | account-view/src/lib.rs:428-430 | the saturating growth test accepts exactly the new lengths at most 10240 over the original |
| Accounts.Account.constructor | account-view/src/lib.rs:31-85 | a record as the host lays it out: no borrows, no live guards, no captured length |
| Accounts.Account.AddLamportsReader | account-view/src/lib.rs:246 | `+= 1 << 4` records one more lamports guard and changes nothing else |
| Accounts.Account.AddDataReader | account-view/src/lib.rs:319 | `+= 1` records one more data guard and changes nothing else |
| Accounts.Account.RemoveLamportsReader | account-view/src/lib.rs:614-621 | `-= 1 << 4` forgets one lamports guard and changes nothing else |
| Accounts.Account.RemoveDataReader | account-view/src/lib.rs:614-621 | `-= 1` forgets one data guard and changes nothing else |
| Accounts.Account.SetLamportsWriter | account-view/src/lib.rs:265 | OR-assigning `0x80` on free lamports records the one writer and changes nothing else |
| Accounts.Account.SetDataWriter | account-view/src/lib.rs:338 | OR-assigning `0x08` on free data records the one writer and changes nothing else |
| Accounts.Account.ClearLamportsWriter | account-view/src/lib.rs:700-705 | `&= LAMPORTS_MASK` drops the lamports writer and changes nothing else |
| Accounts.Account.ClearDataWriter | account-view/src/lib.rs:700-705 | `&= DATA_MASK` drops the data writer and changes nothing else |
| Accounts.Ref.Map | account-view/src/lib.rs:570-584 | the borrow moves to a fresh guard over `f(value)`: the old guard is no longer live, the new one is, and the byte is unchanged |
| Accounts.Ref.FilterMap | account-view/src/lib.rs:587-604 | if `f` accepts, the borrow moves as in `Map`; if it declines, the original guard comes back still live and nothing changes |
| Accounts.Ref.Drop | account-view/src/lib.rs:614-621 | dropping a live guard removes one reader from its own nibble, ends the guard and changes nothing else |
| Accounts.RefMut.Map | account-view/src/lib.rs:648-662 | the exclusive borrow moves to a fresh guard over `f(value)` with the byte unchanged |
| Accounts.RefMut.FilterMap | account-view/src/lib.rs:665-685 | accepting moves the exclusive borrow; declining returns the original guard, still live, with nothing changed |
| Accounts.RefMut.Drop | account-view/src/lib.rs:700-705 | dropping clears exactly the write flag of the guard's nibble and ends the guard |
| Accounts.AccountView.DataIsEmpty | account-view/src/lib.rs:166-171 | the account is empty exactly when its data length is zero |
| Accounts.AccountView.IsOwnedBy | account-view/src/lib.rs:173-177 | holds exactly when the record's owner is the given program |
| Accounts.AliasedViewsAgree | account-view/src/lib.rs:118-177 | two views of one record give the same key, owner, lamports, flags, data length, emptiness and ownership answers |
| Accounts.DataIsEmptyIffNoBytes | account-view/src/lib.rs:166-171 | the account is empty exactly when the unchecked data slice has no bytes |
| Accounts.AccountView.BorrowDataUnchecked | account-view/src/lib.rs:220-222 | the slice has the record's data length and its bytes are the record's first `data_len` data bytes |
| Accounts.AccountView.Assign | account-view/src/lib.rs:185-188 | the owner becomes the new owner; borrow state, lengths, lamports and guards are unchanged |
| Accounts.AccountView.CheckBorrowLamports | account-view/src/lib.rs:279-293 | succeeds iff the lamports nibble has no writer and fewer than 7 readers; the failure is `AccountBorrowFailed` |
| Accounts.AccountView.CheckBorrowMutLamports | account-view/src/lib.rs:298-307 | succeeds iff the lamports nibble is zero; the failure is `AccountBorrowFailed` |
| Accounts.AccountView.CheckBorrowData | account-view/src/lib.rs:354-369 | succeeds iff the data nibble has no writer and fewer than 7 readers; the failure is `AccountBorrowFailed` |
| Accounts.AccountView.CheckBorrowMutData | account-view/src/lib.rs:374-383 | succeeds iff the data nibble is zero; the failure is `AccountBorrowFailed` |
| Accounts.AccountView.TryBorrowLamports | account-view/src/lib.rs:239-255 | succeeds iff the check does. On success: one more lamports reader, the data nibble unchanged, a fresh live guard over the lamports. On failure: nothing changes |
| Accounts.AccountView.TryBorrowMutLamports | account-view/src/lib.rs:259-274 | succeeds iff lamports are free. On success: only bit 7 is set and a fresh live guard with `LAMPORTS_MASK` is returned. On failure: nothing changes |
| Accounts.AccountView.TryBorrowData | account-view/src/lib.rs:312-328 | succeeds iff the check does. On success: one more data reader, the lamports nibble unchanged, a fresh live guard over the data bytes. On failure: nothing changes |
| Accounts.AccountView.TryBorrowMutData | account-view/src/lib.rs:332-349 | succeeds iff data is free. On success: only bit 3 is set and a fresh live guard with `DATA_MASK` is returned. On failure: nothing changes |
| Accounts.AccountView.Realloc | account-view/src/lib.rs:403-458 | borrow failure iff data is borrowed, with nothing changed. An unchanged length returns at once. Otherwise the original length is captured, growth over the ceiling is `InvalidRealloc` with the length kept, success sets the new length and with `zero_init` zeroes exactly `[current, new)`. The borrow byte is restored in every case |
| Accounts.AccountView.Close | account-view/src/lib.rs:473-483 | fails with `AccountBorrowFailed` iff data is borrowed, changing nothing; otherwise owner, lamports and data length are zeroed and the borrow byte is kept |
| Accounts.AccountView.CloseUnchecked | account-view/src/lib.rs:508-517 | owner, lamports and data length are zeroed; borrow state, stored length and guards are kept |
| AccountScenarios.MapFilterDrop | account-view/src/lib.rs:711-743 | a shared guard moved through `map`, an accepting and a declining `filter_map`, then dropped, removes exactly its one reader |
| AccountScenarios.FilterDropMut | account-view/src/lib.rs:779-804 | an exclusive guard moved through `filter_map` and dropped clears exactly its write flag |
| AccountScenarios.SharedLamportsChain | account-view/src/lib.rs:745-777 | acquire, `map`, `filter_map` twice and drop restores the byte; while the chain ran it held one more lamports reader |
| AccountScenarios.SharedDataChain | account-view/src/lib.rs:711-743 | the same for a shared data borrow |
| AccountScenarios.ExclusiveLamportsChain | account-view/src/lib.rs:806-830 | acquire, `map` and drop of an exclusive lamports borrow restores the byte; while live only bit 7 was added |
| AccountScenarios.ExclusiveDataChain | account-view/src/lib.rs:779-804 | acquire, `filter_map` and drop of an exclusive data borrow restores the byte; while live only bit 3 was added |
| AccountScenarios.ThreeReadersThenWriter | account-view/src/lib.rs:239-349 | from a free byte: three shared data borrows give `0x03`, an exclusive data borrow is refused, dropping one reader gives `0x02`, and an exclusive lamports borrow then gives `0x82` |
| InstructionView.New | instruction-view/src/lib.rs:123-129 | the meta holds the address and both flags as given |
| InstructionView.Readonly | instruction-view/src/lib.rs:133-135 | not writable, not signer |
| InstructionView.Writable | instruction-view/src/lib.rs:139-141 | writable, not signer |
| InstructionView.ReadonlySigner | instruction-view/src/lib.rs:145-147 | not writable, signer |
| InstructionView.WritableSigner | instruction-view/src/lib.rs:151-153 | writable and signer |
| InstructionView.NamedConstructorsCover | instruction-view/src/lib.rs:133-153 | each meta equals exactly one of the four named constructors, the one its two flags choose |
| InstructionView.MetaFrom | instruction-view/src/lib.rs:156-160 | the meta of a view carries its key and its writable and signer flags |
| InstructionView.CpiAccountFrom | instruction-view/src/cpi.rs:98-118 | the record copies key, owner, lamports, data length and the three flags, with `rent_epoch` zero |
| InstructionView.CpiAccountMatchesMeta | instruction-view/src/lib.rs:76-94 | the record and the meta of one view agree on address and both flags |
| InstructionView.Seed.Bytes | instruction-view/src/cpi.rs:458-464 | a seed stands for exactly `len` bytes |
| InstructionView.SeedFrom | instruction-view/src/cpi.rs:438-456 | the seed built from a byte slice stands for exactly that slice |
| InstructionView.SignerFrom | instruction-view/src/cpi.rs:486-504 | the signer holds the given seeds and their count |
| Cpi.CheckAccount | instruction-view/src/cpi.rs:167-181 | `InvalidArgument` iff the keys differ; otherwise a writable meta needs both nibbles free and a read-only one needs room for a reader in both; any other failure is `AccountBorrowFailed` |
| Cpi.Validate | instruction-view/src/cpi.rs:167-185 | all positions pass iff each does; a failure is the result of the first failing position |
| Cpi.FirstMismatchIsInvalidArgument | instruction-view/src/cpi.rs:171-173 | if the first failing position has a mismatched key, the whole validation is `InvalidArgument` |
| Cpi.MatchingKeysFailOnBorrow | instruction-view/src/cpi.rs:175-181 | when every key matches, any failure is `AccountBorrowFailed` |
| Cpi.InvokeSigned | instruction-view/src/cpi.rs:155-195 | too few metas is `NotEnoughAccountKeys` before any view is read; otherwise success iff `Validate` passes, the error is `Validate`'s, and on success record `k` is built from view `k`; no account changes |
| Cpi.SliceInvokeSigned | instruction-view/src/cpi.rs:204-253 | too few metas first, then too many views is `InvalidArgument`, then the same ordered checks; on success exactly one record per view, in order; no account changes |
| Cpi.CheckAccountStep | instruction-view/src/cpi.rs:221-232 | the loop body's checks, in the source's order, give `CheckAccount`'s result |
| Cpi.ReturnData.AsSlice | instruction-view/src/cpi.rs:404-406 | the slice is the buffer's prefix of length `size` |
| Cpi.GetReturnData | instruction-view/src/cpi.rs:355-383 | `None` iff the reported size is zero; otherwise the program id and buffer as filled, with size `min(size, 1024)` |
| Cpi.ReturnDataSlice | instruction-view/src/cpi.rs:370-377 | for a non-zero size the returned slice is the buffer's first `min(size, 1024)` bytes |
| SolanaTypes.U16Bytes | instruction-view/src/sysvar.rs:49 | the two little-endian bytes read back as the value |
| SolanaTypes.LeU16Bytes | instruction-view/src/sysvar.rs:167 | reading two bytes as a little-endian u16 and writing it back gives the same bytes |
| Sysvar.ReadU16 | instruction-view/src/sysvar.rs:167 | the u16 read at an offset is the one whose little-endian bytes are there |
| Sysvar.SaturatingAddI64 | instruction-view/src/sysvar.rs:101 | the sum when it fits in i64, otherwise the nearer bound |
| Sysvar.SaturatingAddSign | instruction-view/src/sysvar.rs:101-105 | the saturated sum is negative exactly when the true sum is |
| Sysvar.IntrospectedAccountMeta.ToAccountMeta | instruction-view/src/sysvar.rs:250-252 | the meta keeps the key and takes writable from bit 1 and signer from bit 0 |
| Sysvar.WritableBit | instruction-view/src/sysvar.rs:238-240 | `flags & IS_WRITABLE != 0` is bit 1 of the flags |
| Sysvar.SignerBit | instruction-view/src/sysvar.rs:244-246 | `flags & IS_SIGNER != 0` is bit 0 of the flags |
| Sysvar.MetaAt | instruction-view/src/sysvar.rs:223-231 | the flags byte and key of a meta are its 33 bytes |
| Sysvar.IntrospectedInstruction.GetAccountMetaAtUnchecked | instruction-view/src/sysvar.rs:151-154 | meta `i` is the 33 bytes at `2 + 33*i` from the instruction start |
| Sysvar.IntrospectedInstruction.GetAccountMetaAt | instruction-view/src/sysvar.rs:162-175 | `InvalidArgument` iff `i` is at least the account count; otherwise meta `i` at `2 + 33*i` |
| Sysvar.IntrospectedInstruction.GetProgramId | instruction-view/src/sysvar.rs:179-189 | the 32 bytes at `2 + 33*count` |
| Sysvar.IntrospectedInstruction.GetInstructionData | instruction-view/src/sysvar.rs:193-211 | the data is as long as the u16 after the program id says and is the bytes right after that length |
| Sysvar.Instructions.LoadCurrentIndex | instruction-view/src/sysvar.rs:45-50 | the little-endian u16 of the last two bytes |
| Sysvar.Instructions.DeserializeInstructionUnchecked | instruction-view/src/sysvar.rs:60-73 | instruction `i` starts at the u16 offset stored at byte `2 + 2*i` |
| Sysvar.Instructions.LoadInstructionAt | instruction-view/src/sysvar.rs:77-91 | `InvalidInstructionData` iff the index is at least the count; otherwise the instruction at the stored offset |
| Sysvar.Instructions.GetInstructionRelative | instruction-view/src/sysvar.rs:96-108 | error iff the current index plus the offset is negative or at least the count; otherwise the absolute lookup at that sum |
| Sysvar.TryFrom | instruction-view/src/sysvar.rs:111-124 | `UnsupportedSysvar` for any other key, with nothing changed; otherwise succeeds iff a shared data borrow is possible, and on success the view holds the data under one fresh live data guard |
| Sysvar.MetaRoundTrip | instruction-view/src/sysvar.rs:215-252 | a meta written as flags and key reads back, through the bit tests, as the same meta |
| Sysvar.EncodeMetasAt | instruction-view/src/sysvar.rs:151-154 | in a run of serialized metas, meta `i` occupies bytes `[33*i, 33*(i+1))` |
| Sysvar.InstructionRoundTrip | instruction-view/src/sysvar.rs:151-211 | wherever a serialized instruction is placed, its account count, every meta, the program id and the data read back as written |
| Sysvar.HeaderPlaced | instruction-view/src/sysvar.rs:179-211 | a placed instruction's count, program id and data read back as written |
| Sysvar.MetaPlaced | instruction-view/src/sysvar.rs:162-175 | meta `k` of a placed instruction reads back as the `k`-th meta written |
| Sysvar.SysvarHeader | instruction-view/src/sysvar.rs:45-91 | a serialized sysvar's count and current index read back as written |
| Sysvar.TableEntryPlaced | instruction-view/src/sysvar.rs:60-73 | entry `i` of the offset table is where instruction `i` starts |
| Sysvar.BodyPlaced | instruction-view/src/sysvar.rs:60-73 | instruction `i` is serialized at the start its table entry gives |
| Sysvar.LoadPlaced | instruction-view/src/sysvar.rs:77-91 | loading instruction `i` of a serialized sysvar succeeds and reads back instruction `i` |
| Sysvar.SysvarRoundTrip | instruction-view/src/sysvar.rs:45-91 | count and current index read back, every index past the count is `InvalidInstructionData`, and every instruction reads back in full |
| Sysvar.RelativeRoundTrip | instruction-view/src/sysvar.rs:96-108 | the relative lookup succeeds iff current plus offset is a valid index, and then reads back that instruction |
| AddressError.AsU64 | address/src/error.rs:32 | `as u64` on an i64 keeps the value when it is non-negative and adds 2^64 when it is negative |
| AddressError.AsI64 | address/src/error.rs:51 | `as i64` on a u64 keeps the value below 2^63 and subtracts 2^64 from it otherwise |
| AddressError.CastsInverse | address/src/error.rs:30-52 | the two casts invert each other |
| AddressError.PubkeyErrorToI64 | address/src/error.rs:21-29 | always present, the codes 0 to 2 |
| AddressError.PubkeyErrorToU64 | address/src/error.rs:30-33 | always present, the same code as `to_i64` |
| AddressError.PubkeyErrorFromI64 | address/src/error.rs:38-48 | a variant iff `0 <= n <= 2`, and that variant's code is `n` |
| AddressError.PubkeyErrorFromU64 | address/src/error.rs:49-52 | a variant iff `n <= 2` (codes from 2^63 wrap to negatives), and that variant's unsigned code is `n` |
| AddressError.PubkeyErrorRoundTrip | address/src/error.rs:21-53 | every variant comes back from its signed and its unsigned code |
| AddressError.PubkeyErrorFrom | address/src/error.rs:72-81 | 0, 1 and 2 give the three variants, whose codes they are; every other value gives `None`, which stands for the panic |
| AddressError.FromAgreesWithFromU64 | address/src/error.rs:49-81 | the panicking conversion equals `from_u64` on every input |
| AddressError.ToProgramError | address/src/error.rs:83-91 | each variant maps to the like-named program error, and to that one only |
| AddressError.ToProgramErrorInjective | address/src/error.rs:83-91 | distinct variants give distinct program errors |
| AddressError.ParsePubkeyErrorToI64 | address/src/error.rs:103-110 | always present, the codes 0 and 1 |
| AddressError.ParsePubkeyErrorToU64 | address/src/error.rs:111-114 | always present, the same code as `to_i64` |
| AddressError.ParsePubkeyErrorFromI64 | address/src/error.rs:119-127 | a variant iff `0 <= n <= 1`, and that variant's code is `n` |
| AddressError.ParsePubkeyErrorFromU64 | address/src/error.rs:128-131 | a variant iff `n <= 1`, and that variant's unsigned code is `n` |
| AddressError.ParsePubkeyErrorRoundTrip | address/src/error.rs:103-132 | every variant comes back from its signed and its unsigned code |
| Hasher.LeValue | address/src/hasher.rs:50 | the little-endian value of `n` bytes is below `256^n` |
| Hasher.LeValueInjective | address/src/hasher.rs:50 | equal-length byte strings with equal values are equal |
| Hasher.U64FromBytes | address/src/hasher.rs:50 | eight bytes decode to their little-endian value, which fits in a u64 |
| Hasher.HashCollision | address/src/hasher.rs:38-51 | two keys hash alike at one window start iff their 8-byte windows there are equal |
| Hasher.PubkeyHasher.constructor | address/src/hasher.rs:95-100 | a hasher with the given window start and state zero |
| Hasher.PubkeyHasher.Finish | address/src/hasher.rs:34-37 | the value of the last write |
| Hasher.PubkeyHasher.Write | address/src/hasher.rs:38-51 | the state becomes the little-endian value of exactly `key[offset..offset+8]` |
| Hasher.BuildHasher | address/src/hasher.rs:95-100 | a fresh hasher with the builder's window start and state zero |
| Hasher.NextOffset | address/src/hasher.rs:81-84 | the next window start is at most 24, differs from the last one, and is the last one plus 1 modulo 25 |
| Hasher.StepsWrap | address/src/hasher.rs:80-87 | `n` builders after a valid start, the window start is the start plus `n` modulo 25 |
| Hasher.StepsDistinct | address/src/hasher.rs:123-135 | any 25 consecutive builders use 25 different window starts |
| Hasher.OffsetCell.constructor | address/src/hasher.rs:75-78 | the per-thread cell starts at the random draw, below 24 |
| Hasher.OffsetCell.Default | address/src/hasher.rs:74-90 | the cell steps to the next window start and the builder gets the new value, which is the draw plus the builder count modulo 25 |
| Hasher.SameBuilderSameHash | address/src/hasher.rs:111-122 | two hashers from one builder that write the same key finish with the same value, the key's window at the builder's start |

## Left out

- Syscalls. `sol_invoke_signed_c`, `sol_set_return_data` and `sol_get_return_data` are host calls, so the model stops at what the program hands over or receives.
  - `InvokeSigned` and `SliceInvokeSigned` return the record array handed to the invoke syscall, where the source returns `Ok(())` after the call.
  - `GetReturnData` takes the size, buffer and program id the syscall reports as parameters.
  - Off target, `get_return_data` always returns `None`; that build is not modelled.
  - `invoke` and `slice_invoke` are the signed forms with no signer seeds. The seeds are passed through and take no part in any check, so they have no separate members.
  - `invoke_signed_unchecked`, `set_return_data` and the `CpiInstruction` record consist only of syscall plumbing.
- Raw pointers, `NonNull`, `PhantomData` and lifetimes.
  - A `CpiAccount` holds the key, owner and lamports values read when it is built, where the source holds pointers to them.
  - `Seed` and `Signer` hold the slices themselves, not pointers.
  - The data pointer of a record is not kept.
- `borrow_lamports_unchecked`, `borrow_mut_lamports_unchecked`, `borrow_mut_data_unchecked`, `data_ptr` and `data_ptr_mut` are left out. They return references or pointers into the record and do not touch the borrow state.
- Writes through a `RefMut` into the lamports or the data are not modelled. A guard carries a snapshot of the value it was made over.
- `Accounts.AccountView.CloseUnchecked` models the on-target behaviour, which zeroes the 48 header bytes. Off target the source's body is empty.
- `MAX_INSTRUCTION_ACCOUNTS` is not defined in the modelled files. `SliceInvokeSigned` takes it as a parameter.
- The per-account record built by `From<&AccountView> for Account` in `instruction-view/src/lib.rs:76-94` is field for field the `CpiAccount` of `cpi.rs`. Both are modelled by `InstructionView.CpiAccountFrom`.
  - The `Seed` and `Signer` conversions in `instruction-view/src/lib.rs:183-249` are likewise those of `cpi.rs`. Both are modelled by `SeedFrom` and `SignerFrom`.
- Native-endian reads are modelled as little-endian decoding, the byte order of the on-chain target and of the usual hosts. This covers three reads:
  - `u64::from_ne_bytes` in the hasher;
  - the instruction count, which `load_instruction_at` reads through a `*const u16` (`sysvar.rs:83`);
  - the offset-table entry, which `deserialize_instruction_unchecked` reads the same way (`sysvar.rs:64-67`).
  - Those two loads are also unaligned; alignment is not modelled.
- `AddressError.PubkeyErrorFrom` returns `None` for a value other than 0, 1 or 2. The source panics there (`error.rs:78`); the model has no panics, so `None` stands for it.
- `Hasher.PubkeyHasher.Write` requires a 32-byte input, as the `debug_assert_eq!` does. Release builds accept any slice long enough for the window; such calls are not modelled.
- The random draw that seeds the per-thread offset cell is a constructor parameter. The thread-local `Cell` is the object `Hasher.OffsetCell`, one per thread.
  - The source's comment says the offset stays below 24, but the stepping reaches 24. The window `[24, 32)` is still inside the key, so the model allows `0..=24`.
- The `Hash for Pubkey` impl (`hasher.rs:14-18`) is one call of `write` with the key bytes. It is covered by `Write`.
- `Sysvar.EncodeSysvar` is a serializer written for the round-trip lemmas, not part of the source. It asks that every offset fit in a u16, which is what the readers rely on.
- `Display` strings, `std::error::Error` and `From<Infallible>` carry no logic beyond fixed text or an impossible input, and are not modelled.
- `Instructions::new_unchecked` is the datatype constructor `Sysvar.Instructions`.
- The borrow byte and the stored original length are plain integers of the matching width. The `bv8` lemmas in `BorrowState` connect the bit operations to that arithmetic. `originalDataLen` is not given the same bit-level treatment: its sentinel test and masking are written as `>= 2^31` and `% 2^31`.
