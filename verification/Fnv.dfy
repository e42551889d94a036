/**
 The 64-bit FNV-1a hash of the object store. Exclusive-or is defined bit by bit on naturals,
 and multiplication wraps modulo 2^64.
 */
module Fnv {
  import opened Machine

  const BASIS: U64 := 0xcbf2_9ce4_8422_2325
  const PRIME: nat := 0x100_0000_01b3
  /** The inverse of PRIME modulo 2^64. */
  const PRIME_INVERSE: nat := 0xce96_5057_aff6_957b

  function Xor(a: nat, b: nat): (r: nat)
    decreases a + b
  {
    if a == 0 && b == 0 then 0 else (a + b) % 2 + 2 * Xor(a / 2, b / 2)
  }

  /** One byte of the hash: exclusive-or, then a wrapping multiplication. */
  function Mix(h: U64, b: Byte): (r: U64) {
    (Xor(h, b) * PRIME) % TWO_64
  }

  /** The running hash after folding `data` into `h`, first byte first. */
  function Fold(h: U64, data: seq<Byte>): (r: U64)
    decreases |data|
  {
    if data == [] then h else Fold(Mix(h, data[0]), data[1..])
  }

  function Hash(data: seq<Byte>): (r: U64) {
    Fold(BASIS, data)
  }

  lemma {:induction false} XorZero(a: nat)
    ensures Xor(a, 0) == a
  {
    if a > 0 { XorZero(a / 2); }
  }

  /** One more low bit on either side, given the exclusive-or `x` of the rest. */
  lemma XorBit(a: nat, b: nat, i: nat, j: nat, x: nat)
    requires i < 2 && j < 2 && Xor(a, b) == x
    ensures Xor(2 * a + i, 2 * b + j) == 2 * x + (i + j) % 2
  {
    assert (2 * a + i) / 2 == a && (2 * b + j) / 2 == b;
  }

  /** The published values for the empty string and for "a". */
  lemma KnownHashes()
    ensures Hash([]) == 0xcbf2_9ce4_8422_2325
    ensures Hash([0x61]) == 0xaf63_dc4c_8601_ec8c
  {
    hide Xor;
    XorZero(0x197_e539_c908_4446);
    XorBit(0x197_e539_c908_4446, 0x0, 0, 1, 0x197_e539_c908_4446);
    XorBit(0x32f_ca73_9210_888c, 0x1, 1, 1, 0x32f_ca73_9210_888d);
    XorBit(0x65f_94e7_2421_1119, 0x3, 0, 0, 0x65f_94e7_2421_111a);
    XorBit(0xcbf_29ce_4842_2232, 0x6, 0, 0, 0xcbf_29ce_4842_2234);
    XorBit(0x197e_539c_9084_4464, 0xc, 1, 0, 0x197e_539c_9084_4468);
    XorBit(0x32fc_a739_2108_88c9, 0x18, 0, 0, 0x32fc_a739_2108_88d1);
    XorBit(0x65f9_4e72_4211_1192, 0x30, 1, 1, 0x65f9_4e72_4211_11a2);
    FirstByte(BASIS, 0x61);
  }

  lemma FirstByte(h: U64, b: Byte)
    ensures Fold(h, [b]) == Mix(h, b)
  {
    assert Fold(Mix(h, b), []) == Mix(h, b) && [b][1..] == [];
  }

  /** Exclusive-or does not leave the bit width of its operands. */
  lemma {:induction false} XorBound(a: nat, b: nat, n: nat)
    requires a < Pow2(n) && b < Pow2(n)
    ensures Xor(a, b) < Pow2(n)
  {
    if n > 0 {
      XorBound(a / 2, b / 2, n - 1);
    }
  }

  lemma {:induction false} XorCancelsRight(a: nat, c: nat, b: nat)
    requires Xor(a, b) == Xor(c, b)
    ensures a == c
    decreases a + b + c
  {
    if a + b + c > 0 {
      XorCancelsRight(a / 2, c / 2, b / 2);
    }
  }

  lemma {:induction false} XorCancelsLeft(a: nat, b: nat, c: nat)
    requires Xor(a, b) == Xor(a, c)
    ensures b == c
    decreases a + b + c
  {
    if a + b + c > 0 {
      XorCancelsLeft(a / 2, b / 2, c / 2);
    }
  }

  /** Multiplying by the prime modulo 2^64 can be undone, because the prime is odd. */
  lemma MultiplicationUndone(x: U64)
    ensures ((x * PRIME) % TWO_64 * PRIME_INVERSE) % TWO_64 == x
  {
    var k, r := (x * PRIME) / TWO_64, (x * PRIME) % TWO_64;
    var j := (PRIME * PRIME_INVERSE) / TWO_64;
    assert PRIME * PRIME_INVERSE == j * TWO_64 + 1;
    assert r * PRIME_INVERSE == TWO_64 * (x * j - k * PRIME_INVERSE) + x;
  }

  lemma MultiplicationInjective(x: U64, y: U64)
    requires (x * PRIME) % TWO_64 == (y * PRIME) % TWO_64
    ensures x == y
  {
    MultiplicationUndone(x);
    MultiplicationUndone(y);
  }

  lemma MixInjectiveInState(h: U64, g: U64, b: Byte)
    requires Mix(h, b) == Mix(g, b)
    ensures h == g
  {
    Pow2Of64();
    XorBound(h, b, 64);
    XorBound(g, b, 64);
    MultiplicationInjective(Xor(h, b), Xor(g, b));
    XorCancelsRight(h, g, b);
  }

  lemma MixInjectiveInByte(h: U64, b: Byte, c: Byte)
    requires Mix(h, b) == Mix(h, c)
    ensures b == c
  {
    Pow2Of64();
    XorBound(h, b, 64);
    XorBound(h, c, 64);
    MultiplicationInjective(Xor(h, b), Xor(h, c));
    XorCancelsLeft(h, b, c);
  }

  /** Different running hashes stay different whatever is folded in after them. */
  lemma {:induction false} FoldInjectiveInState(h: U64, g: U64, data: seq<Byte>)
    requires h != g
    ensures Fold(h, data) != Fold(g, data)
    decreases |data|
  {
    if data != [] {
      if Mix(h, data[0]) == Mix(g, data[0]) {
        MixInjectiveInState(h, g, data[0]);
      }
      FoldInjectiveInState(Mix(h, data[0]), Mix(g, data[0]), data[1..]);
    }
  }

  /** Folding in two pieces is folding the whole: the basis of hashing sector by sector. */
  lemma {:induction false} FoldConcat(h: U64, a: seq<Byte>, b: seq<Byte>)
    ensures Fold(h, a + b) == Fold(Fold(h, a), b)
    decreases |a|
  {
    if a == [] {
      assert a + b == b;
    } else {
      assert (a + b)[1..] == a[1..] + b;
      FoldConcat(Mix(h, a[0]), a[1..], b);
    }
  }

  ghost predicate DifferOnlyAt(a: seq<Byte>, b: seq<Byte>, i: nat) {
    && |a| == |b|
    && i < |a|
    && a[i] != b[i]
    && (forall j :: 0 <= j < |a| && j != i ==> a[j] == b[j])
  }

  /** FNV-1a detects every single-byte change, whatever the length. */
  lemma SingleByteChangeDetected(h: U64, a: seq<Byte>, b: seq<Byte>, i: nat)
    requires DifferOnlyAt(a, b, i)
    ensures Fold(h, a) != Fold(h, b)
  {
    assert a[..i] == b[..i];
    assert a[i + 1..] == b[i + 1..];
    assert a == a[..i] + ([a[i]] + a[i + 1..]);
    assert b == b[..i] + ([b[i]] + b[i + 1..]);
    var g := Fold(h, a[..i]);
    FoldConcat(h, a[..i], [a[i]] + a[i + 1..]);
    FoldConcat(h, b[..i], [b[i]] + b[i + 1..]);
    if Mix(g, a[i]) == Mix(g, b[i]) {
      MixInjectiveInByte(g, a[i], b[i]);
    }
    FoldInjectiveInState(Mix(g, a[i]), Mix(g, b[i]), a[i + 1..]);
    assert ([a[i]] + a[i + 1..])[1..] == a[i + 1..];
    assert ([b[i]] + b[i + 1..])[1..] == b[i + 1..];
  }

  /** The streaming loop of the store computes the fold. */
  method FnvStep(h0: U64, data: seq<Byte>) returns (h: U64)
    ensures h == Fold(h0, data)
  {
    h := h0;
    for i := 0 to |data|
      invariant Fold(h0, data) == Fold(h, data[i..])
    {
      h := (Xor(h, data[i]) * PRIME) % TWO_64;
      assert data[i..][1..] == data[i + 1..];
    }
  }
}
