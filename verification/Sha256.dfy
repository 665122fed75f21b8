// SHA-256. The upper half is FIPS 180-4 as written: sections 4.1.2 (functions), 4.2.2
// (constants), 5.1.1 (padding), 5.2.1 (parsing), 5.3.3 (initial value) and 6.2.2 (hash
// computation). The lower half is the implementation: an in-place message schedule, whole
// blocks hashed straight from the input, and a padded tail of one or two blocks.
module Sha256 {
  import opened Types
  import opened Bytes

  // ---- FIPS 180-4 ------------------------------------------------------------------------

  // Eight constants to a row.
  const K_ROWS: seq<seq<bv32>> := [
    [0x428a2f98, 0x71374491, 0xb5c0fbcf, 0xe9b5dba5, 0x3956c25b, 0x59f111f1, 0x923f82a4, 0xab1c5ed5],
    [0xd807aa98, 0x12835b01, 0x243185be, 0x550c7dc3, 0x72be5d74, 0x80deb1fe, 0x9bdc06a7, 0xc19bf174],
    [0xe49b69c1, 0xefbe4786, 0x0fc19dc6, 0x240ca1cc, 0x2de92c6f, 0x4a7484aa, 0x5cb0a9dc, 0x76f988da],
    [0x983e5152, 0xa831c66d, 0xb00327c8, 0xbf597fc7, 0xc6e00bf3, 0xd5a79147, 0x06ca6351, 0x14292967],
    [0x27b70a85, 0x2e1b2138, 0x4d2c6dfc, 0x53380d13, 0x650a7354, 0x766a0abb, 0x81c2c92e, 0x92722c85],
    [0xa2bfe8a1, 0xa81a664b, 0xc24b8b70, 0xc76c51a3, 0xd192e819, 0xd6990624, 0xf40e3585, 0x106aa070],
    [0x19a4c116, 0x1e376c08, 0x2748774c, 0x34b0bcb5, 0x391c0cb3, 0x4ed8aa4a, 0x5b9cca4f, 0x682e6ff3],
    [0x748f82ee, 0x78a5636f, 0x84c87814, 0x8cc70208, 0x90befffa, 0xa4506ceb, 0xbef9a3f7, 0xc67178f2]]

  function K(t: nat): bv32
    requires t < 64
  {
    assert forall i :: 0 <= i < 8 ==> |K_ROWS[i]| == 8;
    K_ROWS[t / 8][t % 8]
  }

  datatype Hash = Hash(a: bv32, b: bv32, c: bv32, d: bv32, e: bv32, f: bv32, g: bv32, h: bv32)

  const IV := Hash(0x6a09e667, 0xbb67ae85, 0x3c6ef372, 0xa54ff53a, 0x510e527f, 0x9b05688c, 0x1f83d9ab, 0x5be0cd19)

  // Addition modulo 2^32; `wrapping_add` in the implementation.
  function Add(x: bv32, y: bv32): bv32 { x + y }
  function Sum(x: bv32, y: bv32, z: bv32, w: bv32): bv32 { x + y + z + w }

  function Ch(x: bv32, y: bv32, z: bv32): bv32 { (x & y) ^ (!x & z) }
  function Maj(x: bv32, y: bv32, z: bv32): bv32 { (x & y) ^ (x & z) ^ (y & z) }

  // ROTR^n(x) is (x >> n) | (x << 32 - n).
  function BigSigma0(x: bv32): bv32 { ((x >> 2) | (x << 30)) ^ ((x >> 13) | (x << 19)) ^ ((x >> 22) | (x << 10)) }
  function BigSigma1(x: bv32): bv32 { ((x >> 6) | (x << 26)) ^ ((x >> 11) | (x << 21)) ^ ((x >> 25) | (x << 7)) }
  function SmallSigma0(x: bv32): bv32 { ((x >> 7) | (x << 25)) ^ ((x >> 18) | (x << 14)) ^ (x >> 3) }
  function SmallSigma1(x: bv32): bv32 { ((x >> 17) | (x << 15)) ^ ((x >> 19) | (x << 13)) ^ (x >> 10) }

  function Widened(b: u8): (r: bv32)
    ensures r < 256
  {
    Byte(b) as bv32
  }

  function BigEndianWord(b: seq<u8>): bv32
    requires |b| == 4
  {
    (Widened(b[0]) << 24) | (Widened(b[1]) << 16) | (Widened(b[2]) << 8) | Widened(b[3])
  }

  // Where x has ones Ch takes y, where it has zeros z; m picks any bits.
  lemma ChMeans(x: bv32, y: bv32, z: bv32, m: bv32)
    ensures x & m == m ==> Ch(x, y, z) & m == y & m
    ensures x & m == 0 ==> Ch(x, y, z) & m == z & m
  {
  }

  // Maj takes whatever at least two of the three agree on.
  lemma MajMeans(x: bv32, y: bv32, z: bv32, m: bv32)
    ensures x & m == y & m || x & m == z & m ==> Maj(x, y, z) & m == x & m
    ensures y & m == z & m ==> Maj(x, y, z) & m == y & m
  {
  }

  // The first byte is the most significant one.
  lemma BigEndianWordMeans(b: seq<u8>)
    requires |b| == 4
    ensures BigEndianWord(b)
         == Widened(b[0]) * 0x100_0000 + Widened(b[1]) * 0x1_0000 + Widened(b[2]) * 0x100 + Widened(b[3])
  {
    hide Widened;
    ShiftedSum(Widened(b[0]), Widened(b[1]), Widened(b[2]), Widened(b[3]));
  }

  lemma WidenedBack(b: u8)
    ensures Widened(b) as int == b
  {
    hide Byte;
    ByteBack(b);
    Extended(Byte(b));
  }

  lemma ShiftedSum(a: bv32, b: bv32, c: bv32, d: bv32)
    requires a < 256 && b < 256 && c < 256 && d < 256
    ensures (a << 24) | (b << 16) | (c << 8) | d == a * 0x100_0000 + b * 0x1_0000 + c * 0x100 + d
  {
  }

  // The message schedule W_t of section 6.2.2, step 1.
  function W(block: seq<u8>, t: nat): bv32
    requires |block| == 64 && t < 64
  {
    if t < 16 then BigEndianWord(block[4 * t..4 * t + 4])
    else Sum(SmallSigma1(W(block, t - 2)), W(block, t - 7), SmallSigma0(W(block, t - 15)), W(block, t - 16))
  }

  // One iteration of step 3.
  function Round(v: Hash, k: bv32, w: bv32): Hash {
    var t1 := Add(Add(Add(Add(v.h, BigSigma1(v.e)), Ch(v.e, v.f, v.g)), k), w);
    var t2 := Add(BigSigma0(v.a), Maj(v.a, v.b, v.c));
    Hash(Add(t1, t2), v.a, v.b, v.c, Add(v.d, t1), v.e, v.f, v.g)
  }

  function Rounds(v: Hash, block: seq<u8>, t: nat): Hash
    requires |block| == 64 && t <= 64
  {
    if t == 0 then v else Round(Rounds(v, block, t - 1), K(t - 1), W(block, t - 1))
  }

  function Plus(x: Hash, y: Hash): Hash {
    Hash(Add(x.a, y.a), Add(x.b, y.b), Add(x.c, y.c), Add(x.d, y.d),
         Add(x.e, y.e), Add(x.f, y.f), Add(x.g, y.g), Add(x.h, y.h))
  }

  // The i-th intermediate hash value from the one before it.
  function Compress(h: Hash, block: seq<u8>): Hash
    requires |block| == 64
  {
    Plus(h, Rounds(h, block, 64))
  }

  // H^(n): the hash value after the first n 512-bit blocks of m.
  function HashOf(m: seq<u8>, n: nat): Hash
    requires 64 * n <= |m|
  {
    if n == 0 then IV else Compress(HashOf(m, n - 1), m[64 * (n - 1)..64 * n])
  }

  // k of section 5.1.1, counted in bytes: the least k >= 0 with l + 1 + k = 56 modulo 64.
  function ZeroCount(l: nat): (k: nat)
    ensures k < 64 && (l + 1 + k) % 64 == 56
  {
    (119 - l % 64) % 64
  }

  function BigEndian64(n: u64): (r: seq<u8>)
    ensures |r| == 8
  {
    [n / 0x100_0000_0000_0000, n / 0x1_0000_0000_0000 % 256, n / 0x100_0000_0000 % 256, n / 0x1_0000_0000 % 256,
     n / 0x100_0000 % 256, n / 0x1_0000 % 256, n / 0x100 % 256, n % 256]
  }

  // The length field; the multiplication wraps at 64 bits, which FIPS rules out by
  // requiring fewer than 2^61 bytes.
  function LengthField(l: nat): (r: seq<u8>)
    ensures |r| == 8
  {
    BigEndian64(8 * l % 0x1_0000_0000_0000_0000)
  }

  function Zeros(k: nat): (r: seq<u8>)
    ensures |r| == k
  {
    seq(k, _ => 0)
  }

  function Pad(m: seq<u8>): (r: seq<u8>)
    ensures |r| == |m| + 9 + ZeroCount(|m|)
  {
    m + [0x80] + Zeros(ZeroCount(|m|)) + LengthField(|m|)
  }

  function Digest(m: seq<u8>): Hash {
    HashOf(Pad(m), |Pad(m)| / 64)
  }

  // ---- padding ---------------------------------------------------------------------------

  lemma ZeroCountIsLeast(l: nat, j: nat)
    requires j < ZeroCount(l)
    ensures (l + 1 + j) % 64 != 56
  {
  }

  // The last two bytes of the length field already tell lengths apart that pad alike.
  lemma LengthFieldTells(l: nat, l': nat)
    requires LengthField(l) == LengthField(l') && -64 < l - l' < 64
    ensures l == l'
  {
    hide LengthField;
    FieldLowBytes(l);
    FieldLowBytes(l');
    CloseAndCongruent(8 * l, 8 * l');
  }

  lemma CloseAndCongruent(x: nat, y: nat)
    requires x % 65536 == y % 65536 && -512 < x - y < 512
    ensures x == y
  {
  }

  lemma FieldLowBytes(l: nat)
    ensures (LengthField(l)[6] as int) * 256 + LengthField(l)[7] as int == 8 * l % 65536
  {
    LowBytes(8 * l, 8 * l % 0x1_0000_0000_0000_0000);
  }

  lemma LowBytes(x: nat, n: nat)
    requires n == x % 0x1_0000_0000_0000_0000
    ensures x % 65536 == (n / 256 % 256) * 256 + n % 256
  {
    var low, high := n % 256, n / 256 % 256;
    var rest := n / 256 / 256;
    Remainder(x, x / 0x1_0000_0000_0000_0000 * 0x1_0000_0000_0000 + rest, high * 256 + low);
  }

  lemma Remainder(x: nat, q: nat, r: nat)
    requires x == q * 65536 + r && r < 65536
    ensures x % 65536 == r
  {
  }

  // The number eight bytes stand for, most significant first.
  function Decoded(b: seq<u8>): nat {
    if b == [] then 0 else Decoded(b[..|b| - 1]) * 256 + b[|b| - 1]
  }

  lemma DecodedSnoc(b: seq<u8>, x: u8)
    ensures Decoded(b + [x]) == Decoded(b) * 256 + x
  {
    assert (b + [x])[..|b|] == b;
  }

  // The leading k bytes of a 64-bit number are the number without its lower bytes.
  lemma BigEndian64Means(n: u64)
    ensures Decoded(BigEndian64(n)) == n
  {
    hide Decoded;
    var r := BigEndian64(n);
    DecodedNone();
    assert [] + [r[0]] == r[..1];
    DecodedSnoc([], r[0]);
    assert Decoded(r[..1]) == n / 0x100_0000_0000_0000;
    Prefix(r, 1, n, 0x1_0000_0000_0000);
    Prefix(r, 2, n, 0x100_0000_0000);
    Prefix(r, 3, n, 0x1_0000_0000);
    Prefix(r, 4, n, 0x100_0000);
    Prefix(r, 5, n, 0x1_0000);
    Prefix(r, 6, n, 0x100);
    Prefix(r, 7, n, 1);
    assert r[..8] == r;
  }

  lemma DecodedNone()
    ensures Decoded([]) == 0
  {
  }

  lemma Prefix(r: seq<u8>, k: nat, n: nat, scale: nat)
    requires k < |r| && scale > 0 && Decoded(r[..k]) == n / (scale * 256) && r[k] == n / scale % 256
    ensures Decoded(r[..k + 1]) == n / scale
  {
    hide Decoded;
    assert r[..k + 1] == r[..k] + [r[k]];
    DecodedSnoc(r[..k], r[k]);
    DivTwice(n, scale);
  }

  lemma DivTwice(n: nat, scale: nat)
    requires scale > 0
    ensures n / scale / 256 == n / (scale * 256)
  {
    var q, r := n / scale, n % scale;
    var u, v := q / 256, q % 256;
    Grouped(scale, u, v);
    Times(scale, 255 - v);
    Unique(n, scale * 256, u, scale * v + r);
  }

  lemma Grouped(scale: nat, u: nat, v: nat)
    ensures scale * (256 * u + v) == (scale * 256) * u + scale * v
    ensures scale * 255 == scale * v + scale * (255 - v)
  {
  }

  lemma Times(d: int, k: int)
    requires d >= 0
    ensures k >= 0 ==> d * k >= 0
    ensures k >= 1 ==> d * k >= d
    ensures k <= -1 ==> d * k <= -d
  {
  }

  lemma Unique(n: nat, d: nat, q: nat, r: nat)
    requires d > 0 && n == d * q + r && r < d
    ensures n / d == q
  {
    var a := n / d;
    assert d * (a - q) == d * a - d * q;
    Times(d, a - q);
  }

  // The length field is the number of bits, up to the 2^61 bytes FIPS allows.
  lemma LengthFieldMeans(l: nat)
    requires l < 0x2000_0000_0000_0000
    ensures Decoded(LengthField(l)) == 8 * l
  {
    hide BigEndian64, Decoded, LengthField;
    ShortLength(l);
    BigEndian64Means(8 * l);
  }

  // A whole number of blocks that starts with the message and ends with its length.
  lemma PadMeans(m: seq<u8>)
    ensures |Pad(m)| % 64 == 0 && |Pad(m)| <= |m| + 72
    ensures Pad(m)[..|m|] == m
    ensures Pad(m)[|Pad(m)| - 8..] == LengthField(|m|)
    ensures |m| < 0x2000_0000_0000_0000 ==> LengthField(|m|) == BigEndian64(8 * |m|)
  {
    hide ZeroCount, BigEndian64, Zeros;
    BlockMultiple(|m|, ZeroCount(|m|));
    ShortLength(|m|);
  }

  lemma BlockMultiple(l: nat, k: nat)
    requires (l + 1 + k) % 64 == 56
    ensures (l + 9 + k) % 64 == 0
  {
  }

  lemma ShortLength(l: nat)
    ensures l < 0x2000_0000_0000_0000 ==> LengthField(l) == BigEndian64(8 * l)
  {
    hide BigEndian64;
    if l < 0x2000_0000_0000_0000 {
      assert 8 * l % 0x1_0000_0000_0000_0000 == 8 * l;
    }
  }

  // Two messages with the same padded form are the same message.
  lemma PadInjective(m: seq<u8>, m': seq<u8>)
    requires Pad(m) == Pad(m')
    ensures m == m'
  {
    hide Pad, LengthField, ZeroCount;
    PadMeans(m);
    PadMeans(m');
    LengthFieldTells(|m|, |m'|);
  }

  // ---- implementation --------------------------------------------------------------------

  function AsHash(s: seq<bv32>): Hash
    requires |s| == 8
  {
    Hash(s[0], s[1], s[2], s[3], s[4], s[5], s[6], s[7])
  }

  // The four rotation mixes as the implementation writes them.
  function MixS0(x: bv32): bv32 { x.RotateRight(7) ^ x.RotateRight(18) ^ (x >> 3) }
  function MixS1(x: bv32): bv32 { x.RotateRight(17) ^ x.RotateRight(19) ^ (x >> 10) }
  function MixA(x: bv32): bv32 { x.RotateRight(2) ^ x.RotateRight(13) ^ x.RotateRight(22) }
  function MixE(x: bv32): bv32 { x.RotateRight(6) ^ x.RotateRight(11) ^ x.RotateRight(25) }

  lemma Rotations(x: bv32)
    ensures MixS0(x) == SmallSigma0(x) && MixS1(x) == SmallSigma1(x)
    ensures MixA(x) == BigSigma0(x) && MixE(x) == BigSigma1(x)
  {
  }

  lemma SumReversed(a: bv32, b: bv32, c: bv32, d: bv32)
    ensures Sum(a, b, c, d) == Sum(d, c, b, a)
  {
  }

  // The schedule, filled in place: w[t] is W_t.
  method Schedule(block: seq<u8>) returns (w: array<bv32>)
    requires |block| == 64
    ensures fresh(w) && w.Length == 64
    ensures forall t :: 0 <= t < 64 ==> w[t] == W(block, t)
  {
    hide SmallSigma0, SmallSigma1, BigSigma0, BigSigma1, BigEndianWord, MixS0, MixS1, MixA, MixE, Sum;
    w := new bv32[64](_ => 0);
    for index := 0 to 16
      invariant forall t :: 0 <= t < index ==> w[t] == W(block, t)
    {
      w[index] := BigEndianWord(block[4 * index..4 * index + 4]);
    }
    for index := 16 to 64
      invariant forall t :: 0 <= t < index ==> w[t] == W(block, t)
    {
      var s0 := MixS0(w[index - 15]);
      var s1 := MixS1(w[index - 2]);
      Rotations(w[index - 15]);
      Rotations(w[index - 2]);
      SumReversed(w[index - 16], s0, w[index - 7], s1);
      w[index] := Sum(w[index - 16], s0, w[index - 7], s1);
    }
  }

  // Hash one block into the state, in place.
  method CompressBlock(state: array<bv32>, block: seq<u8>)
    requires state.Length == 8 && |block| == 64
    modifies state
    ensures AsHash(state[..]) == Compress(old(AsHash(state[..])), block)
  {
    hide BigSigma0, BigSigma1, SmallSigma0, SmallSigma1, MixA, MixE, MixS0, MixS1, Ch, Maj, W, K, Add;
    var w := Schedule(block);
    ghost var start := AsHash(state[..]);
    var a, b, c, d, e, f, g, h := state[0], state[1], state[2], state[3], state[4], state[5], state[6], state[7];
    for index := 0 to 64
      invariant Hash(a, b, c, d, e, f, g, h) == Rounds(start, block, index)
      invariant state[..] == old(state[..])
      invariant forall t :: 0 <= t < 64 ==> w[t] == W(block, t)
    {
      Rotations(e);
      Rotations(a);
      var s1 := MixE(e);
      var ch := Ch(e, f, g);
      var t1 := Add(Add(Add(Add(h, s1), ch), K(index)), w[index]);
      var s0 := MixA(a);
      var maj := Maj(a, b, c);
      var t2 := Add(s0, maj);
      h := g;
      g := f;
      f := e;
      e := Add(d, t1);
      d := c;
      c := b;
      b := a;
      a := Add(t1, t2);
    }
    state[0], state[1], state[2], state[3] := Add(state[0], a), Add(state[1], b), Add(state[2], c), Add(state[3], d);
    state[4], state[5], state[6], state[7] := Add(state[4], e), Add(state[5], f), Add(state[6], g), Add(state[7], h);
  }

  // The first n blocks depend on the first 64 n bytes only.
  lemma {:induction false} HashOfPrefix(m: seq<u8>, m': seq<u8>, n: nat)
    requires 64 * n <= |m| && 64 * n <= |m'| && m[..64 * n] == m'[..64 * n]
    ensures HashOf(m, n) == HashOf(m', n)
  {
    hide Compress;
    if n > 0 {
      assert m[..64 * (n - 1)] == m[..64 * n][..64 * (n - 1)];
      assert m'[..64 * (n - 1)] == m'[..64 * n][..64 * (n - 1)];
      HashOfPrefix(m, m', n - 1);
      assert m[64 * (n - 1)..64 * n] == m[..64 * n][64 * (n - 1)..];
      assert m'[64 * (n - 1)..64 * n] == m'[..64 * n][64 * (n - 1)..];
    }
  }

  lemma HashOfStep(m: seq<u8>, n: nat)
    requires 64 * n + 64 <= |m|
    ensures HashOf(m, 0) == IV
    ensures HashOf(m, n + 1) == Compress(HashOf(m, n), m[64 * n..64 * n + 64])
  {
  }

  function HexDigit(x: bv32): (c: char)
    ensures IsLowerHex(c)
  {
    var v := x & 0xf;
    if v == 0 then '0' else if v == 1 then '1' else if v == 2 then '2' else if v == 3 then '3'
    else if v == 4 then '4' else if v == 5 then '5' else if v == 6 then '6' else if v == 7 then '7'
    else if v == 8 then '8' else if v == 9 then '9' else if v == 10 then 'a' else if v == 11 then 'b'
    else if v == 12 then 'c' else if v == 13 then 'd' else if v == 14 then 'e' else 'f'
  }

  predicate IsLowerHex(c: char) { '0' <= c <= '9' || 'a' <= c <= 'f' }

  function HexWord(x: bv32): (r: string)
    ensures |r| == 8 && forall i :: 0 <= i < 8 ==> IsLowerHex(r[i])
  {
    [HexDigit(x >> 28), HexDigit(x >> 24), HexDigit(x >> 20), HexDigit(x >> 16),
     HexDigit(x >> 12), HexDigit(x >> 8), HexDigit(x >> 4), HexDigit(x)]
  }

  function HexWords(words: seq<bv32>): (r: string)
    ensures |r| == 8 * |words| && forall i :: 0 <= i < |r| ==> IsLowerHex(r[i])
  {
    if words == [] then "" else HexWords(words[..|words| - 1]) + HexWord(words[|words| - 1])
  }

  function Hex(h: Hash): string {
    HexWords([h.a, h.b, h.c, h.d, h.e, h.f, h.g, h.h])
  }

  // ---- reading hex back ------------------------------------------------------------------

  function DigitValue(c: char): (v: bv32)
    requires IsLowerHex(c)
  {
    match c
    case '0' => 0
    case '1' => 1
    case '2' => 2
    case '3' => 3
    case '4' => 4
    case '5' => 5
    case '6' => 6
    case '7' => 7
    case '8' => 8
    case '9' => 9
    case 'a' => 10
    case 'b' => 11
    case 'c' => 12
    case 'd' => 13
    case 'e' => 14
    case _ => 15
  }

  lemma DigitBack(x: bv32)
    ensures DigitValue(HexDigit(x)) == x & 0xf
  {
  }

  // Eight digits, the first one counting 16^7.
  function ReadWord(s: string): bv32
    requires |s| == 8 && forall i :: 0 <= i < 8 ==> IsLowerHex(s[i])
  {
    DigitValue(s[0]) * 0x1000_0000 + DigitValue(s[1]) * 0x100_0000 + DigitValue(s[2]) * 0x10_0000
    + DigitValue(s[3]) * 0x1_0000 + DigitValue(s[4]) * 0x1000 + DigitValue(s[5]) * 0x100
    + DigitValue(s[6]) * 0x10 + DigitValue(s[7])
  }

  lemma HexWordBack(x: bv32)
    ensures ReadWord(HexWord(x)) == x
  {
    hide HexDigit, DigitValue;
    DigitBack(x >> 28);
    DigitBack(x >> 24);
    DigitBack(x >> 20);
    DigitBack(x >> 16);
    DigitBack(x >> 12);
    DigitBack(x >> 8);
    DigitBack(x >> 4);
    DigitBack(x);
    NibbleSum(x);
  }

  lemma NibbleSum(x: bv32)
    ensures ((x >> 28) & 0xf) * 0x1000_0000 + ((x >> 24) & 0xf) * 0x100_0000 + ((x >> 20) & 0xf) * 0x10_0000
            + ((x >> 16) & 0xf) * 0x1_0000 + ((x >> 12) & 0xf) * 0x1000 + ((x >> 8) & 0xf) * 0x100
            + ((x >> 4) & 0xf) * 0x10 + (x & 0xf) == x
  {
  }

  // Characters 8i to 8i + 8 are the i-th word.
  lemma {:induction false} HexWordsBack(words: seq<bv32>, i: nat)
    requires i < |words|
    ensures HexWords(words)[8 * i..8 * i + 8] == HexWord(words[i])
  {
    hide HexWord;
    var n := |words| - 1;
    var front, last := HexWords(words[..n]), HexWord(words[n]);
    Slices(front, last, 8 * i);
    if i < n {
      HexWordsBack(words[..n], i);
    }
  }

  lemma Slices(front: string, last: string, k: nat)
    ensures k + 8 <= |front| ==> (front + last)[k..k + 8] == front[k..k + 8]
    ensures k == |front| && |last| == 8 ==> (front + last)[k..k + 8] == last
  {
  }

  // The whole digest can be read back from its text.
  lemma HexBack(h: Hash)
    ensures |Hex(h)| == 64 && forall i :: 0 <= i < 64 ==> IsLowerHex(Hex(h)[i])
    ensures var s := Hex(h);
      h == Hash(ReadWord(s[0..8]), ReadWord(s[8..16]), ReadWord(s[16..24]), ReadWord(s[24..32]),
                ReadWord(s[32..40]), ReadWord(s[40..48]), ReadWord(s[48..56]), ReadWord(s[56..64]))
  {
    hide HexWords, HexWord, ReadWord;
    var words := [h.a, h.b, h.c, h.d, h.e, h.f, h.g, h.h];
    WordBack(words, 0);
    WordBack(words, 1);
    WordBack(words, 2);
    WordBack(words, 3);
    WordBack(words, 4);
    WordBack(words, 5);
    WordBack(words, 6);
    WordBack(words, 7);
  }

  lemma WordBack(words: seq<bv32>, i: nat)
    requires i < |words|
    ensures ReadWord(HexWords(words)[8 * i..8 * i + 8]) == words[i]
  {
    hide HexWords, HexWord, ReadWord;
    HexWordsBack(words, i);
    HexWordBack(words[i]);
  }

  lemma TailLength(l: nat)
    ensures l % 64 + 9 + ZeroCount(l) == 64 || l % 64 + 9 + ZeroCount(l) == 128
  {
  }

  lemma SameRemainder(l: nat, a: nat)
    ensures (l % 64 + 1 + a) % 64 == (l + 1 + a) % 64
  {
  }

  lemma FrontAndTail(data: seq<u8>, whole: nat)
    requires whole <= |data|
    ensures data[..whole] + (data[whole..] + [0x80] + Zeros(ZeroCount(|data|)) + LengthField(|data|)) == Pad(data)
  {
    hide Zeros, ZeroCount, LengthField;
    assert data[..whole] + data[whole..] == data;
  }

  // The tail: what follows the whole blocks, padded to one or two blocks.
  method PaddedTail(data: seq<u8>, whole: nat) returns (tail: seq<u8>)
    requires whole <= |data| && |data| - whole == |data| % 64
    ensures |tail| == 64 || |tail| == 128
    ensures data[..whole] + tail == Pad(data)
  {
    hide ZeroCount, Pad, BigEndian64, Zeros;
    tail := data[whole..] + [0x80];
    ghost var added := 0;
    ZerosSnoc(0);
    while |tail| % 64 != 56
      invariant added <= ZeroCount(|data|)
      invariant tail == data[whole..] + [0x80] + Zeros(added)
      decreases ZeroCount(|data|) - added
    {
      SameRemainder(|data|, added);
      tail := tail + [0];
      ZerosSnoc(added);
      added := added + 1;
    }
    SameRemainder(|data|, added);
    if added < ZeroCount(|data|) {
      ZeroCountIsLeast(|data|, added);
    }
    TailLength(|data|);
    FrontAndTail(data, whole);
    tail := tail + BigEndian64(8 * |data| % 0x1_0000_0000_0000_0000);
  }

  lemma ZerosSnoc(k: nat)
    ensures Zeros(k + 1) == Zeros(k) + [0]
    ensures Zeros(0) == []
  {
  }

  // A block of the tail is a block of the padded message.
  lemma TailBlock(front: seq<u8>, tail: seq<u8>, blocks: nat, j: nat)
    requires |front| == 64 * blocks && 64 * j + 64 <= |tail|
    ensures HashOf(front + tail, blocks + j + 1)
         == Compress(HashOf(front + tail, blocks + j), tail[64 * j..64 * j + 64])
  {
    hide Compress, HashOf;
    HashOfStep(front + tail, blocks + j);
    assert (front + tail)[64 * (blocks + j)..64 * (blocks + j) + 64] == tail[64 * j..64 * j + 64];
  }

  lemma DigestBlocks(data: seq<u8>, tail: seq<u8>, blocks: nat)
    requires 64 * blocks <= |data| && |tail| % 64 == 0 && data[..64 * blocks] + tail == Pad(data)
    ensures 64 * (blocks + |tail| / 64) <= |Pad(data)|
    ensures HashOf(Pad(data), blocks + |tail| / 64) == Digest(data)
  {
    hide Pad, HashOf, ZeroCount;
    assert |Pad(data)| == 64 * blocks + |tail|;
    var n := |tail| / 64;
    assert |tail| == 64 * n;
    assert |Pad(data)| == 64 * (blocks + n);
    assert |Pad(data)| / 64 == blocks + n;
  }

  // Hash every whole block of `bytes`, which follow the n blocks of `front`.
  method CompressChunks(state: array<bv32>, ghost front: seq<u8>, ghost n: nat, bytes: seq<u8>)
    requires state.Length == 8 && |front| == 64 * n
    requires AsHash(state[..]) == HashOf(front + bytes, n)
    modifies state
    ensures AsHash(state[..]) == HashOf(front + bytes, n + |bytes| / 64)
  {
    hide Compress, HashOf;
    for j := 0 to |bytes| / 64
      invariant AsHash(state[..]) == HashOf(front + bytes, n + j)
    {
      TailBlock(front, bytes, n, j);
      CompressBlock(state, bytes[64 * j..64 * j + 64]);
    }
  }

  method InitialState() returns (state: array<bv32>)
    ensures fresh(state) && state.Length == 8 && AsHash(state[..]) == IV
  {
    state := new bv32[8](i => 0);
    state[0], state[1], state[2], state[3] := 0x6a09e667, 0xbb67ae85, 0x3c6ef372, 0xa54ff53a;
    state[4], state[5], state[6], state[7] := 0x510e527f, 0x9b05688c, 0x1f83d9ab, 0x5be0cd19;
  }

  lemma HashOfNone(m: seq<u8>)
    ensures HashOf(m, 0) == IV
  {
  }

  // Hashing the whole blocks first and the padded tail after them is hashing the padding of
  // the whole message.
  method Sha256Hex(data: seq<u8>) returns (hex: string)
    ensures hex == Hex(Digest(data))
    ensures |hex| == 64 && forall i :: 0 <= i < 64 ==> IsLowerHex(hex[i])
  {
    hide Compress, Pad, HashOf, HexWords, Digest, ZeroCount;
    var state := InitialState();
    var blocks := |data| / 64;
    HashOfNone(data);
    assert [] + data == data;
    CompressChunks(state, [], 0, data);
    var tail := PaddedTail(data, 64 * blocks);
    HashOfPrefix(data, data[..64 * blocks] + tail, blocks);
    CompressChunks(state, data[..64 * blocks], blocks, tail);
    DigestBlocks(data, tail, blocks);
    HexBack(Digest(data));
    hex := Hex(AsHash(state[..]));
  }
}
