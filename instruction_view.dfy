/**
 * The record shapes a program hands to the runtime for a cross-program
 * invocation: account metas, the per-account record the invoke syscall reads,
 * and the signer seeds.
 */
module InstructionView {
  import opened SolanaTypes
  import opened Accounts

  /** One account an instruction reads or writes, with its two permission flags. */
  datatype AccountMeta = AccountMeta(address: Address, isWritable: bool, isSigner: bool)

  function New(address: Address, isWritable: bool, isSigner: bool): (m: AccountMeta)
    ensures m.address == address && m.isWritable == isWritable && m.isSigner == isSigner
  {
    AccountMeta(address, isWritable, isSigner)
  }

  function Readonly(address: Address): (m: AccountMeta)
    ensures m.address == address && !m.isWritable && !m.isSigner
  {
    New(address, false, false)
  }

  function Writable(address: Address): (m: AccountMeta)
    ensures m.address == address && m.isWritable && !m.isSigner
  {
    New(address, true, false)
  }

  function ReadonlySigner(address: Address): (m: AccountMeta)
    ensures m.address == address && !m.isWritable && m.isSigner
  {
    New(address, false, true)
  }

  function WritableSigner(address: Address): (m: AccountMeta)
    ensures m.address == address && m.isWritable && m.isSigner
  {
    New(address, true, true)
  }

  /** Every meta is built by exactly one of the four named constructors, chosen by its two flags. */
  lemma NamedConstructorsCover(m: AccountMeta)
    ensures !m.isWritable && !m.isSigner <==> m == Readonly(m.address)
    ensures m.isWritable && !m.isSigner <==> m == Writable(m.address)
    ensures !m.isWritable && m.isSigner <==> m == ReadonlySigner(m.address)
    ensures m.isWritable && m.isSigner <==> m == WritableSigner(m.address)
  {
  }

  /** The meta describing a view: its key and the view's own writable and signer flags. */
  function MetaFrom(view: AccountView): (m: AccountMeta)
    ensures m.address == view.Key()
    ensures m.isWritable <==> view.raw.isWritable != 0
    ensures m.isSigner <==> view.raw.isSigner != 0
  {
    New(view.Key(), view.IsWritable(), view.IsSigner())
  }

  /**
   * The per-account record of the invoke syscall. The key, owner and
   * lamports are read through pointers in the runtime layout; here they
   * hold the values read when the record is built.
   */
  datatype CpiAccount = CpiAccount(
    key: Address,
    lamports: u64,
    dataLen: u64,
    owner: Address,
    rentEpoch: u64,
    isSigner: bool,
    isWritable: bool,
    executable: bool)

  /** The record for a view: header values copied, `rent_epoch` zero (it is not in the view). */
  function CpiAccountFrom(view: AccountView): (a: CpiAccount)
    reads view.raw
    ensures a.key == view.Key() && a.owner == view.Owner()
    ensures a.lamports == view.Lamports() && a.dataLen == view.DataLen()
    ensures a.rentEpoch == 0
    ensures (a.isSigner <==> view.raw.isSigner != 0) && (a.isWritable <==> view.raw.isWritable != 0)
    ensures a.executable <==> view.raw.executable != 0
  {
    CpiAccount(view.Key(), view.Lamports(), view.DataLen(), view.Owner(), 0,
               view.IsSigner(), view.IsWritable(), view.Executable())
  }

  /** The record agrees with the meta of the same view on the address and both flags. */
  lemma CpiAccountMatchesMeta(view: AccountView)
    ensures CpiAccountFrom(view).key == MetaFrom(view).address
    ensures CpiAccountFrom(view).isWritable == MetaFrom(view).isWritable
    ensures CpiAccountFrom(view).isSigner == MetaFrom(view).isSigner
  {
  }

  /** A signer seed: the bytes and their length as a 64-bit count. */
  datatype Seed = Seed(bytes: seq<u8>, len: u64)
  {
    /** The bytes the seed stands for: the first `len` of them. */
    function Bytes(): (b: seq<u8>)
      requires len <= |bytes|
      ensures |b| == len
    {
      bytes[..len]
    }
  }

  function SeedFrom(value: seq<u8>): (s: Seed)
    requires |value| < 0x1_0000_0000_0000_0000
    ensures s.len <= |s.bytes| && s.Bytes() == value
  {
    Seed(value, |value|)
  }

  /** The seeds of one derived-address signer, with their count. */
  datatype Signer = Signer(seeds: seq<Seed>, len: u64)

  function SignerFrom(value: seq<Seed>): (s: Signer)
    requires |value| < 0x1_0000_0000_0000_0000
    ensures s.len == |s.seeds| && s.seeds == value
  {
    Signer(value, |value|)
  }
}
