/**
 * The error enumerations of address derivation and parsing, their integer
 * codes (the enum discriminants, in declaration order) and their conversion
 * into the program error enumeration.
 */
module AddressError {
  import opened Wrappers
  import opened SolanaTypes

  const TWO_POW_63: int := 0x8000_0000_0000_0000
  const TWO_POW_64: int := 0x1_0000_0000_0000_0000

  /** Rust's `x as u64` on an `i64`: the same 64 bits, read unsigned. */
  function AsU64(x: i64): (n: u64)
    ensures x >= 0 ==> n == x
    ensures x < 0 ==> n == x + TWO_POW_64
  {
    if x >= 0 then x else x + TWO_POW_64
  }

  /** Rust's `n as i64` on a `u64`: the same 64 bits, read as two's complement. */
  function AsI64(n: u64): (x: i64)
    ensures n < TWO_POW_63 ==> x == n
    ensures n >= TWO_POW_63 ==> x == n - TWO_POW_64 && x < 0
  {
    if n < TWO_POW_63 then n else n - TWO_POW_64
  }

  /** The two casts are inverse to each other. */
  lemma CastsInverse(x: i64, n: u64)
    ensures AsI64(AsU64(x)) == x
    ensures AsU64(AsI64(n)) == n
  {
  }

  datatype PubkeyError = MaxSeedLengthExceeded | InvalidSeeds | IllegalOwner

  /** `to_i64`: the discriminant, always present. */
  function PubkeyErrorToI64(e: PubkeyError): (r: Option<i64>)
    ensures r.Some? && 0 <= r.value < 3
  {
    Some(match e
      case MaxSeedLengthExceeded => 0
      case InvalidSeeds => 1
      case IllegalOwner => 2)
  }

  /** `to_u64`: the `i64` code cast to `u64`. */
  function PubkeyErrorToU64(e: PubkeyError): (r: Option<u64>)
    ensures r.Some? && r.value == PubkeyErrorToI64(e).value
  {
    match PubkeyErrorToI64(e)
    case Some(x) => Some(AsU64(x))
    case None => None
  }

  /** `from_i64`: the variant with code `n`, if any; it inverts `to_i64`. */
  function PubkeyErrorFromI64(n: i64): (r: Option<PubkeyError>)
    ensures r.Some? <==> 0 <= n <= 2
    ensures r.Some? ==> PubkeyErrorToI64(r.value) == Some(n)
  {
    if n == 0 then Some(PubkeyError.MaxSeedLengthExceeded)
    else if n == 1 then Some(PubkeyError.InvalidSeeds)
    else if n == 2 then Some(PubkeyError.IllegalOwner)
    else None
  }

  /** `from_u64`: the code cast to `i64`, then `from_i64`; codes from 2^63 on wrap to negatives and are refused. */
  function PubkeyErrorFromU64(n: u64): (r: Option<PubkeyError>)
    ensures r.Some? <==> n <= 2
    ensures r.Some? ==> PubkeyErrorToU64(r.value) == Some(n)
  {
    PubkeyErrorFromI64(AsI64(n))
  }

  /** Every variant survives the trip through its code, signed and unsigned. */
  lemma PubkeyErrorRoundTrip(e: PubkeyError)
    ensures PubkeyErrorFromI64(PubkeyErrorToI64(e).value) == Some(e)
    ensures PubkeyErrorFromU64(PubkeyErrorToU64(e).value) == Some(e)
  {
  }

  /**
   * `From<u64>`: codes 0, 1 and 2 name the three variants; any other code
   * panics, which is `None` here.
   */
  function PubkeyErrorFrom(error: u64): (r: Option<PubkeyError>)
    ensures r.Some? <==> error <= 2
    ensures r.Some? ==> PubkeyErrorToU64(r.value) == Some(error)
  {
    match error
    case 0 => Some(PubkeyError.MaxSeedLengthExceeded)
    case 1 => Some(PubkeyError.InvalidSeeds)
    case 2 => Some(PubkeyError.IllegalOwner)
    case _ => None
  }

  /** The panicking conversion agrees with `from_u64` wherever it does not panic, and panics exactly where that gives nothing. */
  lemma {:induction false} FromAgreesWithFromU64(error: u64)
    ensures PubkeyErrorFrom(error) == PubkeyErrorFromU64(error)
  {
    if error <= 2 {
      assert AsI64(error) == error;
    }
  }

  /** `From<PubkeyError> for ProgramError`: each variant becomes the like-named program error. */
  function ToProgramError(e: PubkeyError): (r: ProgramError)
    ensures r == ProgramError.MaxSeedLengthExceeded || r == ProgramError.InvalidSeeds || r == ProgramError.IllegalOwner
    ensures r == ProgramError.MaxSeedLengthExceeded <==> e == PubkeyError.MaxSeedLengthExceeded
    ensures r == ProgramError.InvalidSeeds <==> e == PubkeyError.InvalidSeeds
    ensures r == ProgramError.IllegalOwner <==> e == PubkeyError.IllegalOwner
  {
    match e
    case MaxSeedLengthExceeded => ProgramError.MaxSeedLengthExceeded
    case InvalidSeeds => ProgramError.InvalidSeeds
    case IllegalOwner => ProgramError.IllegalOwner
  }

  /** Distinct variants become distinct program errors. */
  lemma ToProgramErrorInjective(a: PubkeyError, b: PubkeyError)
    ensures ToProgramError(a) == ToProgramError(b) ==> a == b
  {
  }

  datatype ParsePubkeyError = WrongSize | Invalid

  /** `to_i64`: the discriminant, always present. */
  function ParsePubkeyErrorToI64(e: ParsePubkeyError): (r: Option<i64>)
    ensures r.Some? && 0 <= r.value < 2
  {
    Some(match e
      case WrongSize => 0
      case Invalid => 1)
  }

  /** `to_u64`: the `i64` code cast to `u64`. */
  function ParsePubkeyErrorToU64(e: ParsePubkeyError): (r: Option<u64>)
    ensures r.Some? && r.value == ParsePubkeyErrorToI64(e).value
  {
    match ParsePubkeyErrorToI64(e)
    case Some(x) => Some(AsU64(x))
    case None => None
  }

  /** `from_i64`: the variant with code `n`, if any; it inverts `to_i64`. */
  function ParsePubkeyErrorFromI64(n: i64): (r: Option<ParsePubkeyError>)
    ensures r.Some? <==> 0 <= n <= 1
    ensures r.Some? ==> ParsePubkeyErrorToI64(r.value) == Some(n)
  {
    if n == 0 then Some(WrongSize)
    else if n == 1 then Some(Invalid)
    else None
  }

  /** `from_u64`: the code cast to `i64`, then `from_i64`. */
  function ParsePubkeyErrorFromU64(n: u64): (r: Option<ParsePubkeyError>)
    ensures r.Some? <==> n <= 1
    ensures r.Some? ==> ParsePubkeyErrorToU64(r.value) == Some(n)
  {
    ParsePubkeyErrorFromI64(AsI64(n))
  }

  /** Every variant survives the trip through its code, signed and unsigned. */
  lemma ParsePubkeyErrorRoundTrip(e: ParsePubkeyError)
    ensures ParsePubkeyErrorFromI64(ParsePubkeyErrorToI64(e).value) == Some(e)
    ensures ParsePubkeyErrorFromU64(ParsePubkeyErrorToU64(e).value) == Some(e)
  {
  }
}
