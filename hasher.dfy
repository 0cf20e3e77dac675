/**
 * A fast hasher for 32-byte addresses: the hash is eight consecutive bytes
 * of the key, read as a u64 from a window whose start each builder fixes.
 * Successive builders on one thread step the window start through 0..24.
 */
module Hasher {
  import opened SolanaTypes

  /** Bytes in a u64. */
  const WORD_BYTES: nat := 8

  /**
   * Largest window start: the last eight bytes of a key. The starts cycle
   * through the 25 values `0..=24`; that count is written as the literal 25
   * in arithmetic.
   */
  const MAX_OFFSET: nat := 24

  /** 256 to the power `n`. */
  function Pow256(n: nat): (p: nat)
    ensures p >= 1
  {
    if n == 0 then 1 else 256 * Pow256(n - 1)
  }

  /** The value of `bytes`, least significant byte first. */
  function LeValue(bytes: seq<u8>): (v: nat)
    ensures v < Pow256(|bytes|)
  {
    if bytes == [] then 0 else bytes[0] + 256 * LeValue(bytes[1..])
  }

  /** Two byte strings of one length with the same value are the same bytes. */
  lemma {:induction false} LeValueInjective(a: seq<u8>, b: seq<u8>)
    requires |a| == |b| && LeValue(a) == LeValue(b)
    ensures a == b
  {
    if a != [] {
      var ra, rb := LeValue(a[1..]), LeValue(b[1..]);
      assert a[0] + 256 * ra == b[0] + 256 * rb;
      assert ra == rb && a[0] == b[0];
      LeValueInjective(a[1..], b[1..]);
      assert a == [a[0]] + a[1..];
      assert b == [b[0]] + b[1..];
    }
  }

  /** `u64::from_ne_bytes` on a little-endian target: the eight bytes as a u64. */
  function U64FromBytes(chunk: seq<u8>): (v: u64)
    requires |chunk| == WORD_BYTES
    ensures v == LeValue(chunk)
  {
    assert Pow256(8) == 0x1_0000_0000_0000_0000;
    LeValue(chunk)
  }

  /** The hash of `key` with the window at `offset`. */
  function HashOf(offset: nat, key: seq<u8>): u64
    requires offset <= MAX_OFFSET && |key| == PUBKEY_BYTES
  {
    U64FromBytes(key[offset..offset + WORD_BYTES])
  }

  /** Two keys hash alike at one offset exactly when their windows there are the same bytes. */
  lemma {:induction false} HashCollision(offset: nat, key1: seq<u8>, key2: seq<u8>)
    requires offset <= MAX_OFFSET && |key1| == PUBKEY_BYTES && |key2| == PUBKEY_BYTES
    ensures HashOf(offset, key1) == HashOf(offset, key2)
            <==> key1[offset..offset + WORD_BYTES] == key2[offset..offset + WORD_BYTES]
  {
    if HashOf(offset, key1) == HashOf(offset, key2) {
      LeValueInjective(key1[offset..offset + WORD_BYTES], key2[offset..offset + WORD_BYTES]);
    }
  }

  /** A hasher: the window start it was built with and the value of the last write. */
  class PubkeyHasher {
    const offset: nat
    var state: u64

    ghost predicate Valid()
    {
      offset <= MAX_OFFSET
    }

    /** A hasher with its window at `offset` and nothing written yet. */
    constructor(offset: nat)
      requires offset <= MAX_OFFSET
      ensures Valid() && this.offset == offset && state == 0
    {
      this.offset := offset;
      state := 0;
    }

    /** The value of the last write. */
    function Finish(): (h: u64)
      reads this
      ensures h == state
    {
      state
    }

    /** Hashing a key: the state becomes the eight key bytes from the window start. */
    method Write(bytes: seq<u8>)
      requires Valid() && |bytes| == PUBKEY_BYTES
      modifies this
      ensures state == HashOf(offset, bytes)
      ensures state == LeValue(bytes[offset..offset + WORD_BYTES])
    {
      var chunk := bytes[offset..offset + WORD_BYTES];
      state := U64FromBytes(chunk);
    }
  }

  /** A builder: the window start its hashers use. */
  datatype PubkeyHasherBuilder = PubkeyHasherBuilder(offset: nat)

  /** `build_hasher`: a fresh hasher with the builder's window start and a zero state. */
  method BuildHasher(builder: PubkeyHasherBuilder) returns (h: PubkeyHasher)
    requires builder.offset <= MAX_OFFSET
    ensures fresh(h) && h.Valid()
    ensures h.offset == builder.offset && h.state == 0
  {
    h := new PubkeyHasher(builder.offset);
  }

  /** The window start after `offset`: one more, back to 0 after `MAX_OFFSET`. */
  function NextOffset(offset: nat): (next: nat)
    ensures next <= MAX_OFFSET
    ensures offset <= MAX_OFFSET ==> next == (offset + 1) % 25
    ensures next != offset
  {
    if offset + 1 > MAX_OFFSET then 0 else offset + 1
  }

  /** The window start after `n` steps from `offset`. */
  function Steps(offset: nat, n: nat): nat
  {
    if n == 0 then offset else NextOffset(Steps(offset, n - 1))
  }

  /** `n` steps from a valid start advance it by `n` modulo 25. */
  lemma {:induction false} StepsWrap(offset: nat, n: nat)
    requires offset <= MAX_OFFSET
    ensures Steps(offset, n) == (offset + n) % 25
  {
    if n > 0 {
      StepsWrap(offset, n - 1);
      var q := (offset + n - 1) / 25;
      var m := Steps(offset, n - 1);
      assert offset + n - 1 == 25 * q + m;
      if m < MAX_OFFSET {
        assert offset + n == 25 * q + (m + 1);
      } else {
        assert offset + n == 25 * (q + 1);
      }
    }
  }

  /** The 25 window starts after one another are all different: a run of fewer than 25 builders never repeats one. */
  lemma {:induction false} StepsDistinct(offset: nat, i: nat, j: nat)
    requires offset <= MAX_OFFSET && i < j < i + MAX_OFFSET + 1
    ensures Steps(offset, i) != Steps(offset, j)
  {
    StepsWrap(offset, i);
    StepsWrap(offset, j);
  }

  /**
   * The per-thread cell of the next window start. It is seeded once from a
   * random draw in `0..24`, passed in here as `seed`.
   */
  class OffsetCell {
    var offset: nat
    /** Builders made so far, for stating where the cell has got to. */
    ghost var made: nat
    ghost const seed: nat

    ghost predicate Valid()
      reads this
    {
      offset <= MAX_OFFSET && seed < MAX_OFFSET && offset == Steps(seed, made)
    }

    constructor(seed: nat)
      requires seed < MAX_OFFSET
      ensures Valid() && offset == seed && made == 0 && this.seed == seed
    {
      offset := seed;
      made := 0;
      this.seed := seed;
    }

    /** `PubkeyHasherBuilder::default`: step the cell and give its new value to the builder. */
    method Default() returns (builder: PubkeyHasherBuilder)
      requires Valid()
      modifies this
      ensures Valid() && made == old(made) + 1
      ensures offset == NextOffset(old(offset)) && builder.offset == offset
      ensures builder.offset == (seed + made) % 25
    {
      var nextOffset := offset + 1;
      if nextOffset > MAX_OFFSET {
        nextOffset := 0;
      }
      offset := nextOffset;
      made := made + 1;
      StepsWrap(seed, made);
      builder := PubkeyHasherBuilder(nextOffset);
    }
  }

  /** Two hashers from one builder that write the same key finish with the same hash. */
  method SameBuilderSameHash(builder: PubkeyHasherBuilder, key: seq<u8>) returns (h1: u64, h2: u64)
    requires builder.offset <= MAX_OFFSET && |key| == PUBKEY_BYTES
    ensures h1 == h2 == HashOf(builder.offset, key)
  {
    var hasher1 := BuildHasher(builder);
    var hasher2 := BuildHasher(builder);
    hasher1.Write(key);
    hasher2.Write(key);
    h1 := hasher1.Finish();
    h2 := hasher2.Finish();
  }
}
