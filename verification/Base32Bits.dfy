/** Base 32 bit by bit: which bits of the bytes each character stands for, and the
    other way round (section 6 of RFC 4648). */
module Base32Bits {
  import opened Wrappers
  import opened Digits
  import opened Base32

  // ---------------------------------------------------------- digits as bits

  /** Bit `n` of a number, counted from the right. */
  function RightBit(v: int, n: nat): int
    decreases n
  {
    if n == 0 then v % 2 else RightBit(v / 2, n - 1)
  }

  lemma {:induction false} DigitAt(v: int, len: nat, j: nat)
    requires j < len
    ensures OfValue(v, 2, len)[j] == RightBit(v, len - 1 - j)
    decreases len
  {
    if j < len - 1 {
      DigitAt(v / 2, len - 1, j);
    }
  }

  /** Group `i` of `m` groups of `k` bits starts at `from`; all have `len` bits. */
  predicate GroupAt(k: nat, m: nat, i: nat, len: nat, from: nat)
    decreases m
  {
    && i < m && from + k <= len
    && if i == m - 1 then from + k == len else GroupAt(k, m - 1, i, len - k, from)
  }

  lemma {:induction false} FivesAt(m: nat, i: nat)
    requires i < m
    ensures GroupAt(5, m, i, 5 * m, 5 * i)
    decreases m
  {
    if i < m - 1 {
      FivesAt(m - 1, i);
    }
  }

  lemma {:induction false} EightsAt(m: nat, i: nat)
    requires i < m
    ensures GroupAt(8, m, i, 8 * m, 8 * i)
    decreases m
  {
    if i < m - 1 {
      EightsAt(m - 1, i);
    }
  }

  lemma QuotientAndRest(v: nat, base: nat)
    requires base > 0
    ensures v / base >= 0 && 0 <= v % base < base && (v / base) * base + v % base == v
  {
  }

  lemma LastGroup(v: nat, k: nat, base: nat, len: nat)
    requires k <= len && base == Pow(2, k) && base > 0
    ensures v / base >= 0 && 0 <= v % base < base
    ensures OfValue(v, 2, len) == OfValue(v / base, 2, len - k) + OfValue(v % base, 2, k)
    ensures Value(OfValue(v % base, 2, k), 2) == v % base
  {
    QuotientAndRest(v, base);
    OfValueJoin(v / base, v % base, 2, len - k, k);
    ValueInverse(v % base, 2, k);
  }

  /** Bits `from` to `from+k-1` of a number of `len` bits. */
  function BitsFrom(v: int, len: nat, from: nat, k: nat): (bits: seq<int>)
    requires from + k <= len
    ensures |bits| == k && AllBelow(bits, 2)
  {
    OfValue(v, 2, len)[from..from + k]
  }

  lemma OfValueAt(v: int, base: nat, m: nat, i: nat)
    requires i < m && base > 0
    ensures OfValue(v, base, m)[i] == if i < m - 1 then OfValue(v / base, base, m - 1)[i] else v % base
  {
  }

  lemma BitsOfJoined(v: int, len: nat, from: nat, k: nat, hi: seq<int>, lo: seq<int>)
    requires OfValue(v, 2, len) == hi + lo && from + k <= len
    ensures from + k <= |hi| ==> BitsFrom(v, len, from, k) == hi[from..from + k]
    ensures from == |hi| && k == |lo| ==> BitsFrom(v, len, from, k) == lo
  {
    if from + k <= |hi| {
      assert (hi + lo)[from..from + k] == hi[from..from + k];
    }
    if from == |hi| && k == |lo| {
      assert (hi + lo)[from..from + k] == lo;
    }
  }

  /** A digit of `k` bits is the number that its bits form. */
  lemma {:induction false} DigitIsItsBits(v: nat, k: nat, base: nat, m: nat, i: nat, len: nat, from: nat)
    requires GroupAt(k, m, i, len, from) && base == Pow(2, k) && base > 0
    ensures from + k <= len
    ensures OfValue(v, base, m)[i] == Value(BitsFrom(v, len, from, k), 2)
    decreases m
  {
    LastGroup(v, k, base, len);
    OfValueAt(v, base, m, i);
    BitsOfJoined(v, len, from, k, OfValue(v / base, 2, len - k), OfValue(v % base, 2, k));
    if i < m - 1 {
      DigitIsItsBits(v / base, k, base, m - 1, i, len - k, from);
    }
  }

  lemma DigitBits(ds: seq<int>, k: nat, base: nat, i: nat, len: nat, from: nat)
    requires GroupAt(k, |ds|, i, len, from) && base == Pow(2, k) && base > 0 && AllBelow(ds, base)
    ensures from + k <= len && 0 <= Value(ds, base)
    ensures BitsFrom(Value(ds, base), len, from, k) == OfValue(ds[i], 2, k)
  {
    ValueBound(ds, base);
    DigitIsItsBits(Value(ds, base), k, base, |ds|, i, len, from);
    OfValueInverse(ds, base);
    OfValueInverse(BitsFrom(Value(ds, base), len, from, k), 2);
  }

  /** Bit `r` of digit `i`. */
  lemma BitOfDigit(ds: seq<int>, k: nat, base: nat, i: nat, r: nat, len: nat, from: nat)
    requires GroupAt(k, |ds|, i, len, from) && base == Pow(2, k) && base > 0 && AllBelow(ds, base) && r < k
    ensures 0 <= Value(ds, base) && from + r < len
    ensures OfValue(Value(ds, base), 2, len)[from + r] == RightBit(ds[i], k - 1 - r)
  {
    DigitBits(ds, k, base, i, len, from);
    DigitAt(ds[i], k, r);
    assert OfValue(Value(ds, base), 2, len)[from + r] == BitsFrom(Value(ds, base), len, from, k)[r];
  }

  lemma {:induction false} Zeros(len: nat)
    ensures forall j :: 0 <= j < len ==> OfValue(0, 2, len)[j] == 0
  {
    if len > 0 {
      Zeros(len - 1);
    }
  }

  lemma ShiftedBits(v: nat, len: nat, pad: nat)
    ensures Shifted(v, pad) >= 0
    ensures OfValue(Shifted(v, pad), 2, len + pad) == OfValue(v, 2, len) + OfValue(0, 2, pad)
  {
    ShiftedIsProduct(v, pad);
    PowPositive(2, pad);
    MulOrder(0, v, Pow(2, pad));
    OfValueJoin(v, 0, 2, len, pad);
  }

  lemma UnshiftedBits(v: nat, len: nat, cut: nat)
    ensures Unshifted(v, cut) >= 0
    ensures OfValue(Unshifted(v, cut), 2, len) == OfValue(v, 2, len + cut)[..len]
  {
    UnshiftedIsQuotient(v, cut);
    DivModSplit(v, Pow(2, cut));
    OfValueJoin(v / Pow(2, cut), v % Pow(2, cut), 2, len, cut);
  }

  // ------------------------------------------------------------------ encoding

  /** Bit `j` of a string of `k`-bit digits, the most significant bit of each digit first;
      zero past the end. */
  function Bit(ds: seq<int>, k: nat, j: nat): int {
    if ds == [] then 0 else if j < k then RightBit(ds[0], k - 1 - j) else Bit(ds[1..], k, j - k)
  }

  /** The number that five bits form, from bit `j` on. */
  function FiveBits(b: Bytes, j: nat): int {
    16 * Bit(b, 8, j) + 8 * Bit(b, 8, j + 1) + 4 * Bit(b, 8, j + 2) + 2 * Bit(b, 8, j + 3) + Bit(b, 8, j + 4)
  }

  lemma {:induction false} BitOfByte(b: Bytes, i: nat, r: nat)
    requires i < |b| && r < 8
    ensures Bit(b, 8, 8 * i + r) == RightBit(b[i], 7 - r)
  {
    if i > 0 {
      BitOfByte(b[1..], i - 1, r);
    }
  }

  lemma {:induction false} BitOfQuintet(q: seq<int>, i: nat, r: nat)
    requires i < |q| && r < 5
    ensures Bit(q, 5, 5 * i + r) == RightBit(q[i], 4 - r)
  {
    if i > 0 {
      BitOfQuintet(q[1..], i - 1, r);
    }
  }

  lemma {:induction false} BitPastEnd(ds: seq<int>, j: nat)
    requires j >= 8 * |ds|
    ensures Bit(ds, 8, j) == 0
  {
    if ds != [] {
      BitPastEnd(ds[1..], j - 8);
    }
  }

  lemma ByteBitAt(b: Bytes, i: nat, r: nat, from: nat, len: nat)
    requires IsBytes(b) && i < |b| && r < 8 && from == 8 * i && len == 8 * |b|
    ensures Value(b, 256) >= 0 && OfValue(Value(b, 256), 2, len)[from + r] == Bit(b, 8, from + r)
  {
    assert 256 == Pow(2, 8);
    EightsAt(|b|, i);
    BitOfDigit(b, 8, 256, i, r, len, from);
    BitOfByte(b, i, r);
  }

  lemma EightPosition(j: nat) returns (i: nat, r: nat)
    ensures j == 8 * i + r && r < 8
  {
    i, r := j / 8, j % 8;
  }

  lemma FivePosition(j: nat) returns (i: nat, r: nat)
    ensures j == 5 * i + r && r < 5
  {
    i, r := j / 5, j % 5;
  }

  lemma ByteBits(b: Bytes, j: nat, len: nat)
    requires IsBytes(b) && len == 8 * |b| && j < len
    ensures Value(b, 256) >= 0 && OfValue(Value(b, 256), 2, len)[j] == Bit(b, 8, j)
  {
    var i, r := EightPosition(j);
    ByteBitAt(b, i, r, 8 * i, len);
  }

  lemma PaddedBits(b: Bytes, pad: nat, len: nat, j: nat)
    requires IsBytes(b) && len == 8 * |b| + pad && j < len
    ensures Value(b, 256) >= 0 && Shifted(Value(b, 256), pad) >= 0
    ensures OfValue(Shifted(Value(b, 256), pad), 2, len)[j] == Bit(b, 8, j)
  {
    ValueBound(b, 256);
    ShiftedBits(Value(b, 256), 8 * |b|, pad);
    if j < 8 * |b| {
      ByteBits(b, j, 8 * |b|);
    } else {
      Zeros(pad);
      BitPastEnd(b, j);
    }
  }

  lemma ValueOfFive(d: seq<int>)
    requires |d| == 5
    ensures Value(d, 2) == 16 * d[0] + 8 * d[1] + 4 * d[2] + 2 * d[3] + d[4]
  {
    var d1, d2, d3, d4 := d[..1], d[..2], d[..3], d[..4];
    assert d4[..3] == d3 && d3[..2] == d2 && d2[..1] == d1 && d1[..0] == [];
    assert Value(d1, 2) == d[0];
    assert Value(d2, 2) == 2 * d[0] + d[1];
    assert Value(d3, 2) == 4 * d[0] + 2 * d[1] + d[2];
    assert Value(d4, 2) == 8 * d[0] + 4 * d[1] + 2 * d[2] + d[3];
  }

  lemma FiveBitsAre(b: Bytes, pad: nat, c: nat, i: nat)
    requires IsBytes(b) && 5 * c == 8 * |b| + pad && i < c
    ensures Shifted(Value(b, 256), pad) >= 0
    ensures OfValue(Shifted(Value(b, 256), pad), 32, c)[i] == FiveBits(b, 5 * i)
  {
    PaddedBits(b, pad, 5 * c, 5 * i);
    var v := Shifted(Value(b, 256), pad);
    assert 32 == Pow(2, 5);
    FivesAt(c, i);
    DigitIsItsBits(v, 5, 32, c, i, 5 * c, 5 * i);
    var d := BitsFrom(v, 5 * c, 5 * i, 5);
    forall k | 0 <= k < 5 ensures d[k] == Bit(b, 8, 5 * i + k) {
      PaddedBits(b, pad, 5 * c, 5 * i + k);
    }
    ValueOfFive(d);
  }

  lemma QuintetIsFiveBits(b: Bytes, i: nat)
    requires IsBytes(b) && i < EncodedLen(|b|)
    ensures Quintets(b)[i] == FiveBits(b, 5 * i)
  {
    FiveBitsAre(b, PadBits(|b|), EncodedLen(|b|), i);
  }

  /** Character `i` of the encoding is the one that the alphabet has at the number
      formed by bits 5i to 5i+4 of the bytes, zero bits following the last byte. */
  lemma EncodeIsBitwise(b: Bytes, i: nat)
    requires IsBytes(b) && i < EncodedLen(|b|)
    ensures |Encode(b)| == (8 * |b| + 4) / 5
    ensures 0 <= FiveBits(b, 5 * i) < 32
    ensures Encode(b)[i] == "0123456789bcdefghjkmnpqrstuvwxyz"[FiveBits(b, 5 * i)] as int
  {
    QuintetIsFiveBits(b, i);
    SymbolsAt(Quintets(b), i);
  }

  // ------------------------------------------------------------------ decoding

  /** `c` is the character at place `q` of the alphabet. */
  predicate HasPlace(c: int, q: int) {
    0 <= q < 32 && c == "0123456789bcdefghjkmnpqrstuvwxyz"[q] as int
  }

  lemma QuintetOfIff(c: int, q: nat)
    ensures QuintetOf(c) == Some(q) <==> HasPlace(c, q)
  {
    QuintetFromMeaning(c, 0);
    if HasPlace(c, q) {
      assert Symbol(q) == c;
    }
  }

  ghost predicate InString(c: int) {
    exists q :: HasPlace(c, q)
  }

  lemma InAlphabetIff(s: Bytes)
    ensures InAlphabet(s) <==> forall i :: 0 <= i < |s| ==> InString(s[i])
  {
    forall i | 0 <= i < |s| ensures QuintetOf(s[i]).Some? <==> InString(s[i]) {
      if QuintetOf(s[i]).Some? {
        QuintetOfIff(s[i], QuintetOf(s[i]).value);
      }
      if q :| HasPlace(s[i], q) {
        QuintetOfIff(s[i], q);
      }
    }
  }

  /** What is refused: a character outside the alphabet first, then a length with a final
      group of 1, 3 or 6 characters. */
  lemma DecodeRefuses(s: Bytes)
    ensures var known, rest := (forall i :: 0 <= i < |s| ==> InString(s[i])), |s| % 8;
            && (Decode(s) == Err(BadCharacter) <==> !known)
            && (Decode(s) == Err(PartialGroup) <==> known && (rest == 1 || rest == 3 || rest == 6))
  {
    InAlphabetIff(s);
  }

  /** The number that eight bits form, from bit `j` on. */
  function EightBits(q: seq<int>, j: nat): int {
    128 * Bit(q, 5, j) + 64 * Bit(q, 5, j + 1) + 32 * Bit(q, 5, j + 2) + 16 * Bit(q, 5, j + 3)
    + 8 * Bit(q, 5, j + 4) + 4 * Bit(q, 5, j + 5) + 2 * Bit(q, 5, j + 6) + Bit(q, 5, j + 7)
  }

  lemma QuintetBitAt(q: seq<int>, i: nat, r: nat, from: nat, len: nat)
    requires AllBelow(q, 32) && i < |q| && r < 5 && from == 5 * i && len == 5 * |q|
    ensures Value(q, 32) >= 0 && OfValue(Value(q, 32), 2, len)[from + r] == Bit(q, 5, from + r)
  {
    assert 32 == Pow(2, 5);
    FivesAt(|q|, i);
    BitOfDigit(q, 5, 32, i, r, len, from);
    BitOfQuintet(q, i, r);
  }

  lemma QuintetBits(q: seq<int>, j: nat, len: nat)
    requires AllBelow(q, 32) && len == 5 * |q| && j < len
    ensures Value(q, 32) >= 0 && OfValue(Value(q, 32), 2, len)[j] == Bit(q, 5, j)
  {
    var i, r := FivePosition(j);
    QuintetBitAt(q, i, r, 5 * i, len);
  }

  lemma ValueOfEight(d: seq<int>)
    requires |d| == 8
    ensures Value(d, 2) == 128 * d[0] + 64 * d[1] + 32 * d[2] + 16 * d[3] + 8 * d[4] + 4 * d[5] + 2 * d[6] + d[7]
  {
    var d5, d6, d7 := d[..5], d[..6], d[..7];
    assert d7[..6] == d6 && d6[..5] == d5;
    ValueOfFive(d5);
    assert Value(d6, 2) == 2 * Value(d5, 2) + d[5];
    assert Value(d7, 2) == 2 * Value(d6, 2) + d[6];
  }

  lemma UnpaddedBits(q: seq<int>, cut: nat, len: nat, j: nat)
    requires AllBelow(q, 32) && 5 * |q| == len + cut && j < len
    ensures Value(q, 32) >= 0 && Unshifted(Value(q, 32), cut) >= 0
    ensures OfValue(Unshifted(Value(q, 32), cut), 2, len)[j] == Bit(q, 5, j)
  {
    ValueBound(q, 32);
    UnshiftedBits(Value(q, 32), len, cut);
    QuintetBits(q, j, len + cut);
  }

  lemma EightBitsAre(q: seq<int>, cut: nat, n: nat, i: nat)
    requires AllBelow(q, 32) && 5 * |q| == 8 * n + cut && i < n
    ensures Unshifted(Value(q, 32), cut) >= 0
    ensures OfValue(Unshifted(Value(q, 32), cut), 256, n)[i] == EightBits(q, 8 * i)
  {
    UnpaddedBits(q, cut, 8 * n, 8 * i);
    var v := Unshifted(Value(q, 32), cut);
    assert 256 == Pow(2, 8);
    EightsAt(n, i);
    DigitIsItsBits(v, 8, 256, n, i, 8 * n, 8 * i);
    EightFrom(q, BitsFrom(v, 8 * n, 8 * i, 8), v, cut, 8 * n, 8 * i);
  }

  lemma EightFrom(q: seq<int>, d: seq<int>, v: int, cut: nat, len: nat, from: nat)
    requires AllBelow(q, 32) && 5 * |q| == len + cut && from + 8 <= len && v == Unshifted(Value(q, 32), cut)
    requires d == BitsFrom(v, len, from, 8)
    ensures Value(d, 2) == EightBits(q, from)
  {
    forall k | 0 <= k < 8 ensures d[k] == Bit(q, 5, from + k) {
      UnpaddedBits(q, cut, len, from + k);
    }
    ValueOfEight(d);
  }

  /** Byte `i` of what a string decodes to is the number formed by bits 8i to 8i+7 of the
      places its characters have in the alphabet. */
  lemma DecodeIsBitwise(s: Bytes, q: seq<int>, i: nat)
    requires Decode(s).Ok? && |q| == |s| && forall k :: 0 <= k < |s| ==> HasPlace(s[k], q[k])
    requires i < 5 * |s| / 8
    ensures |Decode(s).value| == 5 * |s| / 8
    ensures Decode(s).value[i] == EightBits(q, 8 * i)
  {
    forall k | 0 <= k < |s| ensures QuintetsOf(s)[k] == q[k] {
      QuintetOfIff(s[k], q[k]);
    }
    assert QuintetsOf(s) == q;
    EightBitsAre(q, LeftoverBits(|s|), DecodedLen(|s|), i);
  }
}
