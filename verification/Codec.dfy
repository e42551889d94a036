/**
 Little-endian fields, 512-byte sectors and the superblock format of the Cairnlog store.
 */
module Codec {
  import opened Machine
  import Fnv

  const SB_MAGIC: U64 := 0x43_6169_726e_4c67
  const SB_VERSION: U32 := 1
  const REC_MAGIC: U64 := 0x43_6169_726e_5265

  const O_MAGIC: nat := 0
  const O_VERSION: nat := 8
  const O_SEQ: nat := 16
  const O_LOG_HEAD: nat := 24
  const O_ROOT_LBA: nat := 32
  const O_ROOT_LEN: nat := 40
  const O_ROOT_HASH: nat := 48
  const O_SB_HASH: nat := 56

  const RH_MAGIC: nat := 0
  const RH_LEN: nat := 8
  const RH_HASH: nat := 16
  const RH_PREV: nat := 24
  const RH_HDR_HASH: nat := 32

  type Sector = s: seq<Byte> | |s| == 512 witness seq(512, _ => 0)

  datatype Superblock =
    Superblock(seqNo: U64, logHead: U64, rootLba: U64, rootLen: U32, rootHash: U64)

  // ---- little-endian integers ----

  function Pow256(n: nat): (p: nat)
    ensures p > 0
  {
    if n == 0 then 1 else 256 * Pow256(n - 1)
  }

  /** The `n` low bytes of `v`, least significant first. */
  function LittleEndian(v: nat, n: nat): (b: seq<Byte>)
    ensures |b| == n
    decreases n
  {
    if n == 0 then [] else [v % 256] + LittleEndian(v / 256, n - 1)
  }

  function Value(b: seq<Byte>): (v: nat)
    ensures v < Pow256(|b|)
    decreases |b|
  {
    if b == [] then 0 else b[0] + 256 * Value(b[1..])
  }

  lemma {:induction false} ValueOfLittleEndian(v: nat, n: nat)
    requires v < Pow256(n)
    ensures Value(LittleEndian(v, n)) == v
    decreases n
  {
    if n > 0 {
      ValueOfLittleEndian(v / 256, n - 1);
      assert LittleEndian(v, n)[1..] == LittleEndian(v / 256, n - 1);
    }
  }

  lemma DivMod256(r: Byte, q: nat)
    ensures (r + 256 * q) % 256 == r && (r + 256 * q) / 256 == q
  {
  }

  lemma {:induction false} LittleEndianOfValue(b: seq<Byte>)
    ensures LittleEndian(Value(b), |b|) == b
    decreases |b|
  {
    if b != [] {
      LittleEndianOfValue(b[1..]);
      DivMod256(b[0], Value(b[1..]));
      assert LittleEndian(Value(b), |b|) == [b[0]] + b[1..];
    }
  }

  /** `v >> 8i`. */
  function ShiftedBytes(v: nat, i: nat): nat
    decreases i
  {
    if i == 0 then v else ShiftedBytes(v / 256, i - 1)
  }

  /** Byte `i` is what the shift `v >> 8i` leaves in its low eight bits. */
  lemma {:induction false} LittleEndianAt(v: nat, n: nat, i: nat)
    requires i < n
    ensures LittleEndian(v, n)[i] == ShiftedBytes(v, i) % 256
    decreases i
  {
    if i > 0 {
      LittleEndianAt(v / 256, n - 1, i - 1);
    }
  }

  lemma PowersOf256()
    ensures Pow256(4) == TWO_32 && Pow256(8) == TWO_64
  {
  }

  function U64At(s: Sector, o: nat): (v: U64)
    requires o + 8 <= 512
  {
    PowersOf256();
    Value(s[o..o + 8])
  }

  function U32At(s: Sector, o: nat): (v: U32)
    requires o + 4 <= 512
  {
    PowersOf256();
    Value(s[o..o + 4])
  }

  /** `b` with `field` written at offset `o`. */
  function Patched(b: seq<Byte>, o: nat, field: seq<Byte>): (r: seq<Byte>)
    requires o + |field| <= |b|
    ensures |r| == |b|
  {
    b[..o] + field + b[o + |field|..]
  }

  /** The byte-by-byte field writer, for both widths. */
  method WriteField(b: array<Byte>, o: nat, v: nat, n: nat)
    requires o + n <= b.Length
    modifies b
    ensures b[..] == Patched(old(b[..]), o, LittleEndian(v, n))
  {
    var i := 0;
    while i < n
      invariant 0 <= i <= n
      invariant forall k :: 0 <= k < i ==> b[o + k] == LittleEndian(v, n)[k]
      invariant forall k :: 0 <= k < b.Length && !(o <= k < o + i) ==> b[k] == old(b[k])
    {
      LittleEndianAt(v, n, i);
      b[o + i] := ShiftedBytes(v, i) % 256;
      i := i + 1;
    }
    assert b[..] == Patched(old(b[..]), o, LittleEndian(v, n)) by {
      forall k | 0 <= k < b.Length
        ensures b[..][k] == Patched(old(b[..]), o, LittleEndian(v, n))[k]
      {
        if o <= k < o + n {
          assert b[o + (k - o)] == LittleEndian(v, n)[k - o];
        }
      }
    }
  }

  /** The byte-by-byte field reader, for both widths. */
  method ReadField(s: Sector, o: nat, n: nat) returns (v: nat)
    requires o + n <= 512
    ensures v == Value(s[o..o + n])
  {
    v := 0;
    var i := 0;
    assert s[o..o] == [];
    while i < n
      invariant 0 <= i <= n
      invariant v == Value(s[o..o + i])
    {
      ValueOfSnoc(s[o..o + i], s[o + i]);
      assert s[o..o + i] + [s[o + i]] == s[o..o + i + 1];
      v := v + s[o + i] * Pow256(i);
      i := i + 1;
    }
  }

  lemma {:induction false} ValueOfSnoc(b: seq<Byte>, x: Byte)
    ensures Value(b + [x]) == Value(b) + x * Pow256(|b|)
    decreases |b|
  {
    if b == [] {
      assert b + [x] == [x];
    } else {
      ValueOfSnoc(b[1..], x);
      assert (b + [x])[1..] == b[1..] + [x];
      assert x * Pow256(|b|) == 256 * (x * Pow256(|b| - 1));
    }
  }

  // ---- the superblock sector ----

  function Zeros(n: nat): (z: seq<Byte>)
    ensures |z| == n
  {
    seq(n, _ => 0)
  }

  /** The 56 bytes that the superblock hash covers. */
  function SbBody(sb: Superblock): (b: seq<Byte>)
    ensures |b| == 56
  {
    LittleEndian(SB_MAGIC, 8) + LittleEndian(SB_VERSION, 4) + Zeros(4) + LittleEndian(sb.seqNo, 8)
    + LittleEndian(sb.logHead, 8) + LittleEndian(sb.rootLba, 8) + LittleEndian(sb.rootLen, 4) + Zeros(4)
    + LittleEndian(sb.rootHash, 8)
  }

  /** A sector that starts with `body` and its hash and is zero from there on. */
  function Sealed(body: seq<Byte>): (s: Sector)
    requires |body| <= 504
  {
    body + LittleEndian(Fnv.Hash(body), 8) + Zeros(504 - |body|)
  }

  function EncodeSb(sb: Superblock): (s: Sector) {
    Sealed(SbBody(sb))
  }

  /** Validation on read: the magic, then the content hash; the version is not looked at. */
  function DecodeSb(s: Sector): (r: Option<Superblock>) {
    if U64At(s, O_MAGIC) != SB_MAGIC then None
    else if Fnv.Hash(s[..O_SB_HASH]) != U64At(s, O_SB_HASH) then None
    else Some(Superblock(U64At(s, O_SEQ), U64At(s, O_LOG_HEAD), U64At(s, O_ROOT_LBA),
                         U32At(s, O_ROOT_LEN), U64At(s, O_ROOT_HASH)))
  }

  /** A field is found again behind whatever precedes it and before whatever follows it. */
  lemma FieldFound(s: seq<Byte>, before: seq<Byte>, field: seq<Byte>)
    requires before + field <= s
    ensures before <= s
    ensures s[|before|..|before| + |field|] == field
  {
  }

  /** Where each field of a superblock is found. */
  lemma SbFields(sb: Superblock)
    ensures var s := EncodeSb(sb);
            && s[0..8] == LittleEndian(0x43_6169_726e_4c67, 8)
            && s[8..12] == LittleEndian(1, 4)
            && s[12..16] == Zeros(4)
            && s[16..24] == LittleEndian(sb.seqNo, 8)
            && s[24..32] == LittleEndian(sb.logHead, 8)
            && s[32..40] == LittleEndian(sb.rootLba, 8)
            && s[40..44] == LittleEndian(sb.rootLen, 4)
            && s[44..48] == Zeros(4)
            && s[48..56] == LittleEndian(sb.rootHash, 8)
            && s[..56] == SbBody(sb)
            && s[56..64] == LittleEndian(Fnv.Hash(SbBody(sb)), 8)
            && s[64..] == Zeros(448)
  {
    hide LittleEndian, Zeros, Fnv.Hash;
    var s := EncodeSb(sb);
    var b16 := LittleEndian(SB_MAGIC, 8) + LittleEndian(SB_VERSION, 4) + Zeros(4);
    var b24 := b16 + LittleEndian(sb.seqNo, 8);
    var b32 := b24 + LittleEndian(sb.logHead, 8);
    var b40 := b32 + LittleEndian(sb.rootLba, 8);
    var b48 := b40 + LittleEndian(sb.rootLen, 4) + Zeros(4);
    FieldFound(s, SbBody(sb), LittleEndian(Fnv.Hash(SbBody(sb)), 8));
    FieldFound(s, b48, LittleEndian(sb.rootHash, 8));
    FieldFound(s, b40 + LittleEndian(sb.rootLen, 4), Zeros(4));
    FieldFound(s, b40, LittleEndian(sb.rootLen, 4));
    FieldFound(s, b32, LittleEndian(sb.rootLba, 8));
    FieldFound(s, b24, LittleEndian(sb.logHead, 8));
    FieldFound(s, b16, LittleEndian(sb.seqNo, 8));
    FieldFound(s, LittleEndian(SB_MAGIC, 8) + LittleEndian(SB_VERSION, 4), Zeros(4));
    FieldFound(s, LittleEndian(SB_MAGIC, 8), LittleEndian(SB_VERSION, 4));
  }

  /** A field reads as `v` exactly if its bytes are those of `v`. */
  lemma ReadsExactly(b: seq<Byte>, v: nat)
    requires v < Pow256(|b|)
    ensures Value(b) == v <==> b == LittleEndian(v, |b|)
  {
    ValueOfLittleEndian(v, |b|);
    LittleEndianOfValue(b);
  }

  /**
   A sector is taken for a superblock exactly if it begins with the magic and has the hash of its first
   56 bytes behind them, and then it is taken for the one whose fields stand where `SbFields` puts them.
   */
  lemma DecodesExactly(s: Sector)
    ensures DecodeSb(s).Some? <==>
            s[0..8] == LittleEndian(0x43_6169_726e_4c67, 8) && s[56..64] == LittleEndian(Fnv.Hash(s[..56]), 8)
    ensures DecodeSb(s).Some? ==>
              var sb := DecodeSb(s).value;
              && s[16..24] == LittleEndian(sb.seqNo, 8)
              && s[24..32] == LittleEndian(sb.logHead, 8)
              && s[32..40] == LittleEndian(sb.rootLba, 8)
              && s[40..44] == LittleEndian(sb.rootLen, 4)
              && s[48..56] == LittleEndian(sb.rootHash, 8)
  {
    hide LittleEndian, Value, Fnv.Hash;
    PowersOf256();
    ReadsExactly(s[0..8], SB_MAGIC);
    ReadsExactly(s[56..64], Fnv.Hash(s[..56]));
    LittleEndianOfValue(s[16..24]);
    LittleEndianOfValue(s[24..32]);
    LittleEndianOfValue(s[32..40]);
    LittleEndianOfValue(s[40..44]);
    LittleEndianOfValue(s[48..56]);
  }

  /** Reading a written superblock gives it back, for all field values. */
  lemma SuperblockRoundTrip(sb: Superblock)
    ensures DecodeSb(EncodeSb(sb)) == Some(sb)
  {
    hide LittleEndian, Value, SbBody, Fnv.Hash;
    SbFields(sb);
    PowersOf256();
    ValueOfLittleEndian(SB_MAGIC, 8);
    ValueOfLittleEndian(sb.seqNo, 8);
    ValueOfLittleEndian(sb.logHead, 8);
    ValueOfLittleEndian(sb.rootLba, 8);
    ValueOfLittleEndian(sb.rootLen, 4);
    ValueOfLittleEndian(sb.rootHash, 8);
    ValueOfLittleEndian(Fnv.Hash(SbBody(sb)), 8);
  }

  /** A validating slot with one altered byte among its first 64 no longer validates. */
  lemma AlteredSuperblockRejected(s: Sector, t: Sector, i: nat)
    requires DecodeSb(s).Some?
    requires i < 64
    requires Fnv.DifferOnlyAt(s, t, i)
    ensures DecodeSb(t).None?
  {
    if i < 56 {
      Fnv.SingleByteChangeDetected(Fnv.BASIS, s[..56], t[..56], i);
      assert s[56..64] == t[56..64];
    } else {
      assert s[..56] == t[..56];
      assert s[56..64][i - 56] != t[56..64][i - 56];
      LittleEndianOfValue(s[56..64]);
      LittleEndianOfValue(t[56..64]);
    }
  }

  /** Writing a field just behind what is already there, over zeros. */
  lemma PatchOverZeros(done: seq<Byte>, n: nat, field: seq<Byte>)
    requires |field| <= n
    ensures Patched(done + Zeros(n), |done|, field) == done + field + Zeros(n - |field|)
  {
  }

  /** Leaving `gap` zeros as they are. */
  lemma SkipZeros(done: seq<Byte>, n: nat, gap: nat)
    requires gap <= n
    ensures done + Zeros(n) == done + Zeros(gap) + Zeros(n - gap)
  {
  }

  /** Writes the next field of a sector that is `done` followed by zeros. */
  method AppendField(b: array<Byte>, ghost done: seq<Byte>, v: nat, n: nat, o: nat)
    requires |done| == o && o + n <= b.Length && b[..] == done + Zeros(b.Length - o)
    modifies b
    ensures b[..] == done + LittleEndian(v, n) + Zeros(b.Length - o - n)
  {
    PatchOverZeros(done, b.Length - o, LittleEndian(v, n));
    WriteField(b, o, v, n);
  }

  /** The hashed part of a superblock, field by field into a zeroed buffer. */
  method FillSuperblock(b: array<Byte>, sb: Superblock)
    requires b.Length == 512 && b[..] == Zeros(512)
    modifies b
    ensures b[..] == SbBody(sb) + Zeros(456)
  {
    assert b[..] == [] + Zeros(512);
    hide LittleEndian, Zeros, Patched;
    AppendField(b, [], SB_MAGIC, 8, O_MAGIC);
    ghost var d := [] + LittleEndian(SB_MAGIC, 8);
    AppendField(b, d, SB_VERSION, 4, O_VERSION);
    SkipZeros(d + LittleEndian(SB_VERSION, 4), 500, 4);
    d := d + LittleEndian(SB_VERSION, 4) + Zeros(4);
    AppendField(b, d, sb.seqNo, 8, O_SEQ);
    d := d + LittleEndian(sb.seqNo, 8);
    AppendField(b, d, sb.logHead, 8, O_LOG_HEAD);
    d := d + LittleEndian(sb.logHead, 8);
    AppendField(b, d, sb.rootLba, 8, O_ROOT_LBA);
    d := d + LittleEndian(sb.rootLba, 8);
    AppendField(b, d, sb.rootLen, 4, O_ROOT_LEN);
    SkipZeros(d + LittleEndian(sb.rootLen, 4), 468, 4);
    d := d + LittleEndian(sb.rootLen, 4) + Zeros(4);
    AppendField(b, d, sb.rootHash, 8, O_ROOT_HASH);
    assert [] + LittleEndian(SB_MAGIC, 8) == LittleEndian(SB_MAGIC, 8);
  }

  /** The hash of the first `o` bytes, written behind them. */
  method Seal(b: array<Byte>, ghost body: seq<Byte>, o: nat)
    requires b.Length == 512 && |body| == o <= 504 && b[..] == body + Zeros(512 - o)
    modifies b
    ensures b[..] == Sealed(body)
  {
    hide LittleEndian, Zeros, Fnv.Fold;
    assert b[..o] == b[..][..o] == body;
    var h := Fnv.FnvStep(Fnv.BASIS, b[..o]);
    AppendField(b, body, h, 8, o);
  }

  /** Filling the sector buffer, the hash of what is there last, gives the superblock encoding. */
  method SuperblockSector(sb: Superblock) returns (s: Sector)
    ensures s == EncodeSb(sb)
  {
    var b := new Byte[512](_ => 0);
    assert b[..] == Zeros(512);
    hide LittleEndian, Zeros, SbBody, Sealed;
    FillSuperblock(b, sb);
    Seal(b, SbBody(sb), O_SB_HASH);
    s := b[..];
  }

  // ---- extents over sectors ----

  /** Sectors needed for `n` bytes. */
  function Sectors(n: nat): (k: nat)
    ensures k * 512 >= n
    ensures n > 0 ==> k > 0 && (k - 1) * 512 < n
    ensures n == 0 ==> k == 0
  {
    (n + 511) / 512
  }

  /** Data sector `k` of an object, the last one padded with zeros. */
  function Chunk(bytes: seq<Byte>, k: nat): (s: Sector)
    requires k < Sectors(|bytes|)
  {
    var rest := bytes[512 * k..];
    if |rest| >= 512 then rest[..512] else rest + Zeros(512 - |rest|)
  }

  /** Byte `i` of data sector `k` is byte `512k + i` of the object, and zero past its end. */
  lemma ChunkBytes(bytes: seq<Byte>, k: nat, i: nat)
    requires k < Sectors(|bytes|) && i < 512
    ensures Chunk(bytes, k)[i] == if 512 * k + i < |bytes| then bytes[512 * k + i] else 0
  {
    assert 512 * k < |bytes|;
    var rest := bytes[512 * k..];
    assert i < |rest| ==> rest[i] == bytes[512 * k + i];
  }

  /** The record header sector written after the data. */
  function HeaderBody(len: nat, hash: U64, prev: U64): (b: seq<Byte>)
    ensures |b| == 32
  {
    LittleEndian(REC_MAGIC, 8) + LittleEndian(len, 4) + Zeros(4) + LittleEndian(hash, 8) + LittleEndian(prev, 8)
  }

  function Header(len: nat, hash: U64, prev: U64): (s: Sector) {
    Sealed(HeaderBody(len, hash, prev))
  }

  /** Where the length, the hash and the previous root of a record are found, and what covers them. */
  lemma HeaderFields(len: U32, hash: U64, prev: U64)
    ensures var s := Header(len, hash, prev);
            && s[0..8] == LittleEndian(0x43_6169_726e_5265, 8)
            && s[8..12] == LittleEndian(len, 4)
            && s[12..16] == Zeros(4)
            && s[16..24] == LittleEndian(hash, 8)
            && s[24..32] == LittleEndian(prev, 8)
            && s[32..40] == LittleEndian(Fnv.Hash(s[..32]), 8)
            && s[40..] == Zeros(472)
            && U32At(s, 8) == len && U64At(s, 16) == hash && U64At(s, 24) == prev
  {
    hide LittleEndian, Value, Zeros, Fnv.Hash;
    var s := Header(len, hash, prev);
    var b8 := LittleEndian(REC_MAGIC, 8);
    var b16 := b8 + LittleEndian(len, 4) + Zeros(4);
    var b24 := b16 + LittleEndian(hash, 8);
    FieldFound(s, HeaderBody(len, hash, prev), LittleEndian(Fnv.Hash(HeaderBody(len, hash, prev)), 8));
    FieldFound(s, b24, LittleEndian(prev, 8));
    FieldFound(s, b16, LittleEndian(hash, 8));
    FieldFound(s, b8 + LittleEndian(len, 4), Zeros(4));
    FieldFound(s, b8, LittleEndian(len, 4));
    assert s[..32] == HeaderBody(len, hash, prev);
    PowersOf256();
    ValueOfLittleEndian(len, 4);
    ValueOfLittleEndian(hash, 8);
    ValueOfLittleEndian(prev, 8);
  }

  /** The record header, filled in the same way. */
  method HeaderSector(len: U32, hash: U64, prev: U64) returns (s: Sector)
    ensures s == Header(len, hash, prev)
  {
    var b := new Byte[512](_ => 0);
    assert b[..] == [] + Zeros(512);
    hide LittleEndian, Zeros, Patched, Sealed;
    AppendField(b, [], REC_MAGIC, 8, RH_MAGIC);
    ghost var d := [] + LittleEndian(REC_MAGIC, 8);
    AppendField(b, d, len, 4, RH_LEN);
    SkipZeros(d + LittleEndian(len, 4), 500, 4);
    d := d + LittleEndian(len, 4) + Zeros(4);
    AppendField(b, d, hash, 8, RH_HASH);
    d := d + LittleEndian(hash, 8);
    AppendField(b, d, prev, 8, RH_PREV);
    d := d + LittleEndian(prev, 8);
    assert d == HeaderBody(len, hash, prev) by {
      assert [] + LittleEndian(REC_MAGIC, 8) == LittleEndian(REC_MAGIC, 8);
    }
    Seal(b, d, RH_HDR_HASH);
    s := b[..];
  }

  /** The buffer for data sector `k`: a copy of what remains, up to 512 bytes, over zeros. */
  method DataSector(bytes: seq<Byte>, k: nat, written: nat) returns (s: Sector, n: nat)
    requires k < Sectors(|bytes|) && written == 512 * k
    ensures s == Chunk(bytes, k)
    ensures n == Min(|bytes| - written, 512)
  {
    var sect := new Byte[512](_ => 0);
    var remaining := |bytes| - written;
    n := if remaining >= 512 then 512 else remaining;
    for i := 0 to n
      invariant forall j :: 0 <= j < i ==> sect[j] == bytes[written + j]
      invariant forall j :: i <= j < 512 ==> sect[j] == 0
    {
      sect[i] := bytes[written + i];
    }
    s := sect[..];
    assert s == Chunk(bytes, k);
  }

  /** Reads a slot's fields one by one and validates it. */
  method ParseSuperblock(s: Sector) returns (r: Option<Superblock>)
    ensures r == DecodeSb(s)
  {
    hide Value;
    PowersOf256();
    var magic := ReadField(s, O_MAGIC, 8);
    if magic != SB_MAGIC {
      return None;
    }
    var h := Fnv.FnvStep(Fnv.BASIS, s[0..O_SB_HASH]);
    var stored := ReadField(s, O_SB_HASH, 8);
    assert s[0..O_SB_HASH] == s[..O_SB_HASH];
    if h != stored {
      return None;
    }
    var seqNo := ReadField(s, O_SEQ, 8);
    var logHead := ReadField(s, O_LOG_HEAD, 8);
    var rootLba := ReadField(s, O_ROOT_LBA, 8);
    var rootLen := ReadField(s, O_ROOT_LEN, 4);
    var rootHash := ReadField(s, O_ROOT_HASH, 8);
    r := Some(Superblock(seqNo, logHead, rootLba, rootLen, rootHash));
  }
}
