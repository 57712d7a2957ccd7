/** The FNV-1a 64-bit hash of redcli, its inverse, and the damage it is bound to detect. */
module Fnv {

  type Byte = x: int | 0 <= x < 256
  type Word = x: int | 0 <= x < 0x1_0000_0000_0000_0000

  const TWO_64: int := 0x1_0000_0000_0000_0000
  const OFFSET_BASIS: Word := 14695981039346656037
  const PRIME: int := 1099511628211  // 2^40 + 435
  const PRIME_INVERSE: int := 0xCE965057AFF6957B  // modulo 2^64

  /** Bitwise exclusive or of two naturals. */
  function Xor(a: nat, b: nat): nat
    decreases a + b
  {
    if a == 0 then b
    else if b == 0 then a
    else 2 * Xor(a / 2, b / 2) + (if a % 2 == b % 2 then 0 else 1)
  }

  lemma {:induction false} XorCancels(a: nat, b: nat)
    ensures Xor(Xor(a, b), b) == a
    decreases a + b
  {
    if a != 0 && b != 0 {
      XorCancels(a / 2, b / 2);
      assert Xor(a, b) / 2 == Xor(a / 2, b / 2);
    } else if b != 0 {
      XorCancels(0, b / 2);
    }
  }

  lemma XorByHalves(a: nat, b: nat)
    ensures Xor(a, b) == 2 * Xor(a / 2, b / 2) + (if a % 2 == b % 2 then 0 else 1)
  {
  }

  /** Bit `k` of the result is set just when it is set in one of the two. */
  lemma {:induction false} XorIsBitwise(a: nat, b: nat, k: nat)
    ensures Xor(a, b) / Pow2(k) % 2 == (a / Pow2(k) + b / Pow2(k)) % 2
  {
    XorByHalves(a, b);
    if k == 0 {
      LowestBit(a, b, Xor(a / 2, b / 2));
    } else {
      XorIsBitwise(a / 2, b / 2, k - 1);
      BitAbove(a, b, Xor(a, b), Pow2(k - 1));
    }
  }

  lemma BitAbove(a: nat, b: nat, x: nat, p: nat)
    requires p > 0 && x / 2 / p % 2 == (a / 2 / p + b / 2 / p) % 2
    ensures x / (2 * p) % 2 == (a / (2 * p) + b / (2 * p)) % 2
  {
    HalfFirst(a, p);
    HalfFirst(b, p);
    HalfFirst(x, p);
  }

  lemma LowestBit(a: nat, b: nat, x: nat)
    ensures (2 * x + (if a % 2 == b % 2 then 0 else 1)) % 2 == (a + b) % 2
  {
  }

  lemma HalfFirst(a: nat, p: nat)
    requires p > 0
    ensures a / (2 * p) == a / 2 / p
  {
    var q, r := a / 2 / p, a / 2 % p;
    QuotientIs(a, 2 * p, q, 2 * r + a % 2);
  }

  lemma QuotientIs(a: int, n: int, q: int, r: int)
    requires 0 <= r < n && a == q * n + r
    ensures a / n == q
  {
    if a / n != q {
      MultipleTooFar(a / n - q, n);
    }
  }

  lemma MultipleTooFar(q: int, n: int)
    requires q != 0 && n > 0
    ensures q * n >= n || q * n <= -n
  {
  }

  lemma {:induction false} XorMovesLittle(a: nat, b: nat)
    ensures a - b <= Xor(a, b) <= a + b
    decreases a + b
  {
    if a != 0 && b != 0 {
      XorMovesLittle(a / 2, b / 2);
    }
  }

  function Pow2(k: nat): (p: nat)
    ensures p > 0
  {
    if k == 0 then 1 else 2 * Pow2(k - 1)
  }

  lemma Pow2Plus4(k: nat)
    ensures Pow2(k + 4) == 16 * Pow2(k)
  {
    assert Pow2(k + 4) == 2 * Pow2(k + 3) == 4 * Pow2(k + 2) == 8 * Pow2(k + 1);
  }

  lemma Pow2Plus16(k: nat)
    ensures Pow2(k + 16) == 0x1_0000 * Pow2(k)
  {
    Pow2Plus4(k);
    Pow2Plus4(k + 4);
    Pow2Plus4(k + 8);
    Pow2Plus4(k + 12);
  }

  lemma WordWidth()
    ensures Pow2(64) == TWO_64
  {
    Pow2Plus16(0);
    Pow2Plus16(16);
    Pow2Plus16(32);
    Pow2Plus16(48);
  }

  lemma {:induction false} XorFits(a: nat, b: nat, k: nat)
    requires a < Pow2(k) && b < Pow2(k)
    ensures Xor(a, b) < Pow2(k)
  {
    if a != 0 && b != 0 {
      XorFits(a / 2, b / 2, k - 1);
    }
  }

  /** `h ^= data[i]` on a 64-bit state. */
  function MixByte(h: Word, b: Byte): Word {
    WordWidth();
    XorFits(h, b, 64);
    Xor(h, b)
  }

  /** One round of the loop: `h ^= b; h *= PRIME`, truncated to 64 bits. */
  function Round(h: Word, b: Byte): Word {
    MixByte(h, b) * PRIME % TWO_64
  }

  function Unround(h: Word, b: Byte): Word {
    MixByte(h * PRIME_INVERSE % TWO_64, b)
  }

  lemma Remainder(a: int, q: int, r: Word)
    requires a == r + TWO_64 * q
    ensures a % TWO_64 == r
  {
  }

  lemma MultiplyUndone(x: Word)
    ensures (x * PRIME % TWO_64) * PRIME_INVERSE % TWO_64 == x
    ensures (x * PRIME_INVERSE % TWO_64) * PRIME % TWO_64 == x
  {
    var k := PRIME * PRIME_INVERSE / TWO_64;
    assert PRIME * PRIME_INVERSE == 1 + TWO_64 * k;
    var q := x * PRIME / TWO_64;
    var p := x * PRIME_INVERSE / TWO_64;
    Remainder((x * PRIME % TWO_64) * PRIME_INVERSE, x * k - q * PRIME_INVERSE, x);
    Remainder((x * PRIME_INVERSE % TWO_64) * PRIME, x * k - p * PRIME, x);
  }

  lemma RoundIsBijection(h: Word, b: Byte)
    ensures Unround(Round(h, b), b) == h
    ensures Round(Unround(h, b), b) == h
  {
    MultiplyUndone(MixByte(h, b));
    MultiplyUndone(h);
    XorCancels(h, b);
    XorCancels(h * PRIME_INVERSE % TWO_64, b);
  }

  /** The hash state after feeding `s` to the state `h`. */
  function Hash(h: Word, s: seq<Byte>): Word
    decreases |s|
  {
    if s == [] then h else Hash(Round(h, s[0]), s[1..])
  }

  /** The state from which feeding `s` arrives at `h`. */
  function Unhash(h: Word, s: seq<Byte>): Word {
    if s == [] then h else Unround(Unhash(h, s[1..]), s[0])
  }

  function Digest(s: seq<Byte>): Word {
    Hash(OFFSET_BASIS, s)
  }

  lemma {:induction false} MixHighBits(h: nat, a: nat)
    requires h == 0xCBF2_9CE4_8422_2325 && a == 'a' as int
    ensures Xor(h / 16, a / 16) == 0xCBF2_9CE4_8422_234
  {
    XorByHalves(h / 64, a / 64);
    XorByHalves(h / 32, a / 32);
    XorByHalves(h / 16, a / 16);
  }

  lemma {:induction false} MixOfA(h: nat, a: nat)
    requires h == 0xCBF2_9CE4_8422_2325 && a == 'a' as int
    ensures Xor(h, a) == 0xCBF2_9CE4_8422_2344
  {
    MixHighBits(h, a);
    XorByHalves(h / 8, a / 8);
    XorByHalves(h / 4, a / 4);
    XorByHalves(h / 2, a / 2);
    XorByHalves(h, a);
  }

  lemma {:induction false} OneByte(b: Byte)
    ensures Hash(OFFSET_BASIS, [b]) == Round(OFFSET_BASIS, b)
  {
    assert [b][1..] == [];
  }

  /** The published digests of the empty string and of "a" (section 8 of draft-eastlake-fnv). */
  lemma {:induction false} PublishedDigests(a: Byte)
    requires a == 'a' as int
    ensures Digest([]) == 0xCBF2_9CE4_8422_2325 && Digest([a]) == 0xAF63_DC4C_8601_EC8C
  {
    MixOfA(OFFSET_BASIS, a);
    OneByte(a);
  }

  /** The hash loop over the first `n` bytes of a buffer. */
  method Fnv1a64(data: seq<Byte>, n: nat) returns (h: Word)
    requires n <= |data|
    ensures h == Digest(data[..n])
  {
    h := OFFSET_BASIS;
    for i := 0 to n
      invariant Hash(h, data[i..n]) == Digest(data[..n])
    {
      assert data[i..n][1..] == data[i + 1..n];
      h := MixByte(h, data[i]);
      h := h * PRIME % TWO_64;
    }
  }

  /** For every fixed byte string the hash permutes the 64-bit states. */
  lemma {:induction false} HashIsBijection(h: Word, s: seq<Byte>)
    ensures Unhash(Hash(h, s), s) == h
    ensures Hash(Unhash(h, s), s) == h
    decreases |s|
  {
    if s != [] {
      HashIsBijection(Round(h, s[0]), s[1..]);
      HashIsBijection(h, s[1..]);
      RoundIsBijection(h, s[0]);
      RoundIsBijection(Unhash(h, s[1..]), s[0]);
    }
  }

  lemma {:induction false} HashConcat(h: Word, s: seq<Byte>, t: seq<Byte>)
    ensures Hash(h, s + t) == Hash(Hash(h, s), t)
    decreases |s|
  {
    if s == [] {
      assert s + t == t;
    } else {
      assert (s + t)[1..] == s[1..] + t;
      HashConcat(Round(h, s[0]), s[1..], t);
    }
  }

  // ---- Damage confined to four neighbouring bytes ----
  //
  // Two runs that start in one state and disagree only in four bytes drift apart by
  // e1*P^3 + e2*P^2 + e3*P + e4 modulo 2^64, where every |e| <= 510. With
  // P = 2^40 + 435 that sum cannot vanish unless e1 does.

  predicate Small(e: int) {
    -510 <= e <= 510
  }

  function LowPart(e1: int, e2: int, e3: int, e4: int): int {
    82312875 * e1 + 189225 * e2 + 435 * e3 + e4
  }

  function HighPart(e1: int, e2: int, e3: int): int {
    567675 * e1 + 870 * e2 + e3
  }

  lemma Split(low: int, high: int, n: int)
    requires -0x80_0000_0000 < low < 0x80_0000_0000
    requires low + 0x100_0000_0000 * high == TWO_64 * n
    ensures low == 0 && high == 0x100_0000 * n
  {
    var t := 0x100_0000 * n - high;
    assert low == 0x100_0000_0000 * t;
  }

  lemma UnitHighPart(e2: int, e3: int, e4: int)
    requires Small(e2) && Small(e3) && Small(e4)
    requires LowPart(1, e2, e3, e4) == 0
    ensures 0 < HighPart(1, e2, e3) < 0x100_0000
  {
    assert -436 <= e2 <= -434;
  }

  lemma NoSmallCancellation(e1: int, e2: int, e3: int, e4: int, k: int)
    requires Small(e1) && Small(e2) && Small(e3) && Small(e4)
    requires e4 + PRIME * (e3 + PRIME * (e2 + PRIME * e1)) == TWO_64 * k
    ensures e1 == 0
  {
    var low, high := LowPart(e1, e2, e3, e4), HighPart(e1, e2, e3);
    var n := k - (0x1_0000 * e2 + 0x100_0000_0000_0000 * e1 + 1305 * 0x1_0000 * e1);
    Split(low, high, n);
    assert -1 <= e1 <= 1;
    if e1 == 1 {
      UnitHighPart(e2, e3, e4);
    } else if e1 == -1 {
      UnitHighPart(-e2, -e3, -e4);
    }
  }

  /** A round turns the gap `d` between two states, drifting by `e`, into the gap `d'`. */
  predicate Gap(d: int, e: int, d': int, k: int) {
    d' == PRIME * (d + e) + TWO_64 * k
  }

  lemma GapsCancel(d1: int, d2: int, d3: int, e1: int, e2: int, e3: int, e4: int, k1: int, k2: int, k3: int)
    requires Small(e1) && Small(e2) && Small(e3) && Small(e4)
    requires Gap(0, e1, d1, k1) && Gap(d1, e2, d2, k2) && Gap(d2, e3, d3, k3)
    requires d3 + e4 == 0
    ensures e1 == 0
  {
    NoSmallCancellation(e1, e2, e3, e4, -(k3 + PRIME * k2 + PRIME * PRIME * k1));
  }

  /** How far mixing in two bytes moves two states relative to each other. */
  function Drift(x: Word, b: Byte, y: Word, c: Byte): (e: int)
    ensures Small(e)
  {
    XorMovesLittle(x, b);
    XorMovesLittle(y, c);
    (MixByte(x, b) - MixByte(y, c)) - (x - y)
  }

  /** The gap between two states after one round, modulo 2^64. */
  lemma RoundGap(x: Word, b: Byte, y: Word, c: Byte) returns (k: int)
    ensures Gap(x - y, Drift(x, b, y, c), Round(x, b) - Round(y, c), k)
  {
    k := MixByte(y, c) * PRIME / TWO_64 - MixByte(x, b) * PRIME / TWO_64;
  }

  lemma SameMixSameByte(h: Word, b: Byte, c: Byte)
    requires MixByte(h, b) == MixByte(h, c)
    ensures b == c
  {
    XorCommutes(h, b);
    XorCommutes(h, c);
    XorCancels(b, h);
    XorCancels(c, h);
  }

  lemma {:induction false} XorCommutes(a: nat, b: nat)
    ensures Xor(a, b) == Xor(b, a)
    decreases a + b
  {
    if a != 0 && b != 0 {
      XorCommutes(a / 2, b / 2);
    }
  }

  lemma SameRoundNoGap(x: Word, b: Byte, y: Word, c: Byte)
    requires Round(x, b) == Round(y, c)
    ensures x - y + Drift(x, b, y, c) == 0
  {
    MultiplyUndone(MixByte(x, b));
    MultiplyUndone(MixByte(y, c));
  }

  lemma FirstOfFourAgrees(h: Word, b: seq<Byte>, c: seq<Byte>)
    requires |b| == |c| == 4
    requires Hash(h, b) == Hash(h, c)
    ensures b[0] == c[0]
  {
    HashOfFour(h, b);
    HashOfFour(h, c);
    var x1, y1 := Round(h, b[0]), Round(h, c[0]);
    var x2, y2 := Round(x1, b[1]), Round(y1, c[1]);
    FourRounds(h, x1, y1, x2, y2, Round(x2, b[2]), Round(y2, c[2]), b, c);
  }

  lemma FourRounds(h: Word, x1: Word, y1: Word, x2: Word, y2: Word, x3: Word, y3: Word, b: seq<Byte>, c: seq<Byte>)
    requires |b| == |c| == 4
    requires x1 == Round(h, b[0]) && y1 == Round(h, c[0])
    requires x2 == Round(x1, b[1]) && y2 == Round(y1, c[1])
    requires x3 == Round(x2, b[2]) && y3 == Round(y2, c[2])
    requires Round(x3, b[3]) == Round(y3, c[3])
    ensures b[0] == c[0]
  {
    var k1 := RoundGap(h, b[0], h, c[0]);
    var k2 := RoundGap(x1, b[1], y1, c[1]);
    var k3 := RoundGap(x2, b[2], y2, c[2]);
    SameRoundNoGap(x3, b[3], y3, c[3]);
    GapsCancel(x1 - y1, x2 - y2, x3 - y3,
               Drift(h, b[0], h, c[0]), Drift(x1, b[1], y1, c[1]), Drift(x2, b[2], y2, c[2]), Drift(x3, b[3], y3, c[3]),
               k1, k2, k3);
    SameMixSameByte(h, b[0], c[0]);
  }

  lemma HashOfFour(h: Word, b: seq<Byte>)
    requires |b| == 4
    ensures Hash(h, b) == Round(Round(Round(Round(h, b[0]), b[1]), b[2]), b[3])
  {
    var h1, h2 := Round(h, b[0]), Round(Round(h, b[0]), b[1]);
    var h3 := Round(h2, b[2]);
    assert Hash(h, b) == Hash(h1, b[1..]);
    assert Hash(h1, b[1..]) == Hash(h2, b[2..]);
    assert Hash(h2, b[2..]) == Hash(h3, b[3..]);
    assert Hash(h3, b[3..]) == Hash(Round(h3, b[3]), b[4..]);
  }

  lemma {:induction false} ShortStringsCollideNever(h: Word, b: seq<Byte>, c: seq<Byte>)
    requires |b| == |c| <= 4
    requires Hash(h, b) == Hash(h, c)
    ensures b == c
    decreases |b|
  {
    if b != [] {
      var pad := seq(4 - |b|, _ => 0);
      HashConcat(h, b, pad);
      HashConcat(h, c, pad);
      FirstOfFourAgrees(h, b + pad, c + pad);
      assert (b + pad)[0] == b[0] && (c + pad)[0] == c[0];
      ShortStringsCollideNever(Round(h, b[0]), b[1..], c[1..]);
    }
  }

  /** Whatever the rest of the data, damage inside four neighbouring bytes changes the digest. */
  lemma BurstIsDetected(s: seq<Byte>, t: seq<Byte>, at: nat, width: nat)
    requires |s| == |t| && width <= 4 && at + width <= |s|
    requires s[..at] == t[..at] && s[at + width..] == t[at + width..]
    ensures Digest(s) == Digest(t) <==> s == t
  {
    var h := Digest(s[..at]);
    var b, c := s[at..at + width], t[at..at + width];
    var rest := s[at + width..];
    assert s == s[..at] + (b + rest);
    assert t == t[..at] + (c + rest);
    HashConcat(OFFSET_BASIS, s[..at], b + rest);
    HashConcat(OFFSET_BASIS, t[..at], c + rest);
    HashConcat(h, b, rest);
    HashConcat(h, c, rest);
    if Digest(s) == Digest(t) {
      HashIsBijection(Hash(h, b), rest);
      HashIsBijection(Hash(h, c), rest);
      ShortStringsCollideNever(h, b, c);
    }
  }

  /** `t` cannot be told from `s` by damage confined to four neighbouring bytes. */
  ghost predicate EqualOrFarApart(s: seq<Byte>, t: seq<Byte>) {
    && |s| == |t|
    && (s == t || exists i, j :: 0 <= i && i + 4 <= j < |s| && s[i] != t[i] && s[j] != t[j])
  }

  lemma {:induction false} FirstDifference(s: seq<Byte>, t: seq<Byte>) returns (i: nat)
    requires |s| == |t| && s != t
    ensures i < |s| && s[i] != t[i] && s[..i] == t[..i]
    decreases |s|
  {
    if s[0] != t[0] {
      i := 0;
    } else {
      var j := FirstDifference(s[1..], t[1..]);
      i := j + 1;
      assert s[..i] == [s[0]] + s[1..][..j];
      assert t[..i] == [t[0]] + t[1..][..j];
    }
  }

  /** Equal digests of equally long strings: no difference, or two differences at least four bytes apart. */
  lemma EqualDigests(s: seq<Byte>, t: seq<Byte>)
    requires |s| == |t| && Digest(s) == Digest(t)
    ensures EqualOrFarApart(s, t)
  {
    if s != t {
      var i := FirstDifference(s, t);
      var width := if i + 4 <= |s| then 4 else |s| - i;
      if s[i + width..] == t[i + width..] {
        BurstIsDetected(s, t, i, width);
      } else {
        var j := FirstDifference(s[i + width..], t[i + width..]);
        assert s[i + width + j] != t[i + width + j];
      }
    }
  }
}
