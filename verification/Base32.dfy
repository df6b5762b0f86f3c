/** The base 32 codec of bufs/encoding.go: section 6 of RFC 4648 with the geohash
    alphabet and, as section 3.2 allows, without padding characters. */
module Base32 {
  import opened Wrappers
  import opened Digits

  const ALPHABET: string := "0123456789bcdefghjkmnpqrstuvwxyz"

  function EncodedLen(n: nat): nat { (8 * n + 4) / 5 }

  function DecodedLen(c: nat): nat { 5 * c / 8 }

  /** The zero bits added on the right to make whole 5-bit groups. */
  function PadBits(n: nat): nat { 5 * EncodedLen(n) - 8 * n }

  /** `k` zero bits appended on the right. */
  function Shifted(v: int, k: nat): int
    decreases k
  {
    if k == 0 then v else Shifted(2 * v, k - 1)
  }

  /** The last `k` bits cut off. */
  function Unshifted(v: int, k: nat): int
    decreases k
  {
    if k == 0 then v else Unshifted(v / 2, k - 1)
  }

  /** The bit string of `n` bytes with value `v`, zero-padded, as 5-bit groups. */
  function Groups(v: int, n: nat): (q: seq<int>)
    ensures |q| == EncodedLen(n) && AllBelow(q, 32)
  {
    OfValue(Shifted(v, PadBits(n)), 32, EncodedLen(n))
  }

  /** The bit string of `b`, zero-padded, as 5-bit groups. */
  function Quintets(b: Bytes): (q: seq<int>)
    ensures |q| == EncodedLen(|b|) && AllBelow(q, 32)
  {
    Groups(Value(b, 256), |b|)
  }

  function Symbol(q: int): int
    requires 0 <= q < 32
  {
    ALPHABET[q] as int
  }

  function Symbols(q: seq<int>): (s: Bytes)
    requires AllBelow(q, 32)
    ensures |s| == |q|
  {
    if q == [] then [] else [Symbol(q[0])] + Symbols(q[1..])
  }

  function Encode(b: Bytes): (s: Bytes)
    ensures |s| == EncodedLen(|b|)
  {
    Symbols(Quintets(b))
  }

  /** The 5-bit group that a character stands for. */
  function QuintetFrom(c: int, i: nat): Option<nat>
    requires i <= 32
    decreases 32 - i
  {
    if i == 32 then None else if Symbol(i) == c then Some(i) else QuintetFrom(c, i + 1)
  }

  function QuintetOf(c: int): Option<nat> {
    QuintetFrom(c, 0)
  }

  datatype DecodeError = BadCharacter | PartialGroup

  predicate InAlphabet(s: Bytes) {
    forall i :: 0 <= i < |s| ==> QuintetOf(s[i]).Some?
  }

  function QuintetsOf(s: Bytes): (q: seq<int>)
    requires InAlphabet(s)
    ensures |q| == |s|
  {
    seq(|s|, i requires 0 <= i < |s| => QuintetOf(s[i]).value)
  }

  /** The bits that are left over after the last whole byte. */
  function LeftoverBits(c: nat): nat { 5 * c - 8 * DecodedLen(c) }

  /** Section 6 knows final groups of 2, 4, 5 and 7 characters only. */
  predicate RegularLength(c: nat) {
    c % 8 != 1 && c % 8 != 3 && c % 8 != 6
  }

  function Decode(s: Bytes): Result<Bytes, DecodeError> {
    if !InAlphabet(s) then Err(BadCharacter)
    else if !RegularLength(|s|) then Err(PartialGroup)
    else Ok(OfValue(Unshifted(Value(QuintetsOf(s), 32), LeftoverBits(|s|)), 256, DecodedLen(|s|)))
  }

  // ------------------------------------------------------------- the alphabet

  lemma AlphabetAscends(i: nat)
    requires i < 31
    ensures Symbol(i) < Symbol(i + 1)
  {
  }

  lemma {:induction false} SymbolsAscend(i: nat, j: nat)
    requires i < j < 32
    ensures Symbol(i) < Symbol(j)
    decreases j - i
  {
    AlphabetAscends(i);
    if i + 1 < j {
      SymbolsAscend(i + 1, j);
    }
  }

  lemma {:induction false} QuintetFromMeaning(c: int, i: nat)
    requires i <= 32
    ensures var r := QuintetFrom(c, i);
            && (r.Some? ==> i <= r.value < 32 && Symbol(r.value) == c)
            && forall q :: i <= q < 32 && Symbol(q) == c ==> r == Some(q)
    decreases 32 - i
  {
    if i < 32 {
      QuintetFromMeaning(c, i + 1);
      if Symbol(i) == c {
        forall q | i < q < 32 ensures Symbol(q) != c {
          SymbolsAscend(i, q);
        }
      }
    }
  }

  lemma {:induction false} SymbolsAt(q: seq<int>, i: nat)
    requires AllBelow(q, 32) && i < |q|
    ensures Symbols(q)[i] == Symbol(q[i])
  {
    if i > 0 {
      SymbolsAt(q[1..], i - 1);
    }
  }

  lemma {:induction false} SymbolsJoin(p: seq<int>, q: seq<int>)
    requires AllBelow(p, 32) && AllBelow(q, 32)
    ensures AllBelow(p + q, 32) && Symbols(p + q) == Symbols(p) + Symbols(q)
  {
    if p == [] {
      assert p + q == q;
    } else {
      assert (p + q)[1..] == p[1..] + q;
      SymbolsJoin(p[1..], q);
    }
  }

  /** Symbols and groups are in bijection. */
  lemma SymbolInverse(s: Bytes, q: seq<int>)
    requires AllBelow(q, 32)
    ensures s == Symbols(q) <==> InAlphabet(s) && QuintetsOf(s) == q
  {
    forall i | 0 <= i < |s| ensures QuintetOf(s[i]).Some? ==> QuintetOf(s[i]).value < 32 && Symbol(QuintetOf(s[i]).value) == s[i] {
      QuintetFromMeaning(s[i], 0);
    }
    forall i | 0 <= i < |q| ensures QuintetOf(Symbols(q)[i]) == Some(q[i]) && Symbols(q)[i] == Symbol(q[i]) {
      SymbolsAt(q, i);
      QuintetFromMeaning(Symbol(q[i]), 0);
    }
    if InAlphabet(s) && QuintetsOf(s) == q {
      forall i | 0 <= i < |s| ensures s[i] == Symbols(q)[i] {
        assert QuintetsOf(s)[i] == q[i];
      }
    }
  }

  lemma QuintetsOfBelow(s: Bytes)
    requires InAlphabet(s)
    ensures AllBelow(QuintetsOf(s), 32)
  {
    forall i | 0 <= i < |s| ensures QuintetsOf(s)[i] < 32 {
      QuintetFromMeaning(s[i], 0);
    }
  }

  // -------------------------------------------------------------- round trips

  /** The length of the decode buffer is exact, and encodings have regular length. */
  lemma LengthIdentity(n: nat)
    ensures DecodedLen(EncodedLen(n)) == n && RegularLength(EncodedLen(n))
    ensures PadBits(n) == LeftoverBits(EncodedLen(n)) < 5
  {
    var q, r := n / 5, n % 5;
    assert n == 5 * q + r;
    WholeGroupsLength(q, r);
  }

  /** A final group of `r` bytes takes 0, 2, 4, 5 or 7 characters. */
  lemma WholeGroupsLength(q: nat, r: nat)
    requires r < 5
    ensures EncodedLen(5 * q + r) == 8 * q + (8 * r + 4) / 5
    ensures DecodedLen(8 * q + (8 * r + 4) / 5) == 5 * q + r
    ensures (8 * q + (8 * r + 4) / 5) % 8 == (8 * r + 4) / 5
  {
  }

  lemma RegularLengths(c: nat)
    requires RegularLength(c)
    ensures EncodedLen(DecodedLen(c)) == c
  {
    var q, r := c / 8, c % 8;
    assert c == 8 * q + r;
    assert DecodedLen(c) == 5 * q + 5 * r / 8;
    assert EncodedLen(DecodedLen(c)) == 8 * q + (8 * (5 * r / 8) + 4) / 5;
  }

  lemma {:induction false} PowOfPow(k: nat, e: nat)
    ensures Pow(Pow(2, k), e) == Pow(2, k * e)
  {
    if e > 0 {
      PowOfPow(k, e - 1);
      PowAdd(2, k, k * (e - 1));
      assert k + k * (e - 1) == k * e;
    }
  }

  lemma Pow256(n: nat)
    ensures Pow(256, n) == Pow(2, 8 * n)
  {
    assert Pow(2, 8) == 256;
    PowOfPow(8, n);
  }

  lemma Pow32(n: nat)
    ensures Pow(32, n) == Pow(2, 5 * n)
  {
    assert Pow(2, 5) == 32;
    PowOfPow(5, n);
  }

  /** With k bits of padding the two number ranges are the same. */
  lemma PowsAgree(n: nat, k: nat, c: nat)
    requires 8 * n + k == 5 * c
    ensures Pow(256, n) * Pow(2, k) == Pow(32, c)
  {
    Pow256(n);
    Pow32(c);
    PowAdd(2, 8 * n, k);
  }

  lemma {:induction false} ShiftedIsProduct(v: int, k: nat)
    ensures Shifted(v, k) == v * Pow(2, k)
    decreases k
  {
    if k > 0 {
      ShiftedIsProduct(2 * v, k - 1);
      Rearrange(v, 2, Pow(2, k - 1));
    }
  }

  lemma {:induction false} ShiftInverse(v: int, k: nat)
    ensures Unshifted(Shifted(v, k), k) == v
    decreases k
  {
    if k > 0 {
      ShiftSnoc(v, k - 1);
      ShiftInverse(v, k - 1);
    }
  }

  lemma {:induction false} ShiftSnoc(v: int, k: nat)
    ensures Shifted(v, k + 1) == 2 * Shifted(v, k)
    decreases k
  {
    if k > 0 {
      ShiftSnoc(2 * v, k - 1);
    }
  }

  /** Cutting off `k` bits and appending zeros restores `v` exactly when they were zero. */
  lemma UnshiftInverseIff(v: nat, k: nat)
    ensures Shifted(Unshifted(v, k), k) <= v
    ensures Pow(2, k) > 0 && (Shifted(Unshifted(v, k), k) == v <==> v % Pow(2, k) == 0)
  {
    var p, u := Pow(2, k), Unshifted(v, k);
    PowPositive(2, k);
    UnshiftedIsQuotient(v, k);
    ShiftedIsProduct(u, k);
    DivModSplit(v, p);
  }

  lemma DivTwice(v: nat, p: nat)
    requires p > 0
    ensures v / (2 * p) == (v / 2) / p
  {
    var q, r, d := (v / 2) / p, (v / 2) % p, v % 2;
    DivModSplit(v / 2, p);
    DivModSplit(v, 2);
    assert v == q * (2 * p) + (2 * r + d);
    DivModUnique(q, 2 * p, 2 * r + d);
  }

  lemma {:induction false} UnshiftedIsQuotient(v: nat, k: nat)
    ensures Pow(2, k) > 0 && Unshifted(v, k) == v / Pow(2, k)
    decreases k
  {
    PowPositive(2, k);
    if k > 0 {
      PowPositive(2, k - 1);
      UnshiftedIsQuotient(v / 2, k - 1);
      DivTwice(v, Pow(2, k - 1));
    }
  }

  lemma ShiftBelow(v: nat, k: nat, p: nat, w: nat)
    requires p * Pow(2, k) == w && v < p
    ensures 0 <= Shifted(v, k) < w
  {
    ShiftedIsProduct(v, k);
    PowPositive(2, k);
    MulOrder(v + 1, p, Pow(2, k));
    Distribute(v, 1, Pow(2, k));
  }

  lemma ShiftBound(v: nat, n: nat)
    requires v < Pow(256, n)
    ensures 0 <= Shifted(v, PadBits(n)) < Pow(32, EncodedLen(n))
  {
    PowsAgree(n, PadBits(n), EncodedLen(n));
    PowPositive(256, n);
    PowPositive(32, EncodedLen(n));
    ShiftBelow(v, PadBits(n), Pow(256, n), Pow(32, EncodedLen(n)));
  }

  lemma QuotientBound(v: nat, p: nat, pad: nat, w: nat)
    requires pad > 0 && p * pad == w && v < w
    ensures v / pad < p
  {
    DivBound(v, pad, p);
  }

  lemma UnshiftBelow(v: nat, k: nat, p: nat, w: nat)
    requires p * Pow(2, k) == w && v < w
    ensures 0 <= Unshifted(v, k) < p
  {
    UnshiftedIsQuotient(v, k);
    QuotientBound(v, p, Pow(2, k), w);
  }

  lemma UnshiftBound(v: nat, n: nat)
    requires v < Pow(32, EncodedLen(n))
    ensures 0 <= Unshifted(v, PadBits(n)) < Pow(256, n)
  {
    PowsAgree(n, PadBits(n), EncodedLen(n));
    PowPositive(256, n);
    PowPositive(32, EncodedLen(n));
    UnshiftBelow(v, PadBits(n), Pow(256, n), Pow(32, EncodedLen(n)));
  }

  /** Decoding the encoding gives the bytes back, for every byte string. */
  lemma RoundTrip(b: Bytes)
    requires IsBytes(b)
    ensures Decode(Encode(b)) == Ok(b)
  {
    var n, v := |b|, Value(b, 256);
    LengthIdentity(n);
    SymbolInverse(Encode(b), Quintets(b));
    ValueBound(b, 256);
    ShiftBound(v, n);
    ValueInverse(Shifted(v, PadBits(n)), 32, EncodedLen(n));
    ShiftInverse(v, PadBits(n));
    OfValueInverse(b, 256);
  }

  /** The leftover bits of the last character are zero. */
  predicate Canonical(s: Bytes)
    requires InAlphabet(s)
  {
    PowPositive(2, LeftoverBits(|s|));
    Value(QuintetsOf(s), 32) % Pow(2, LeftoverBits(|s|)) == 0
  }

  /** Whatever decodes, encodes back to itself exactly when its leftover bits are
      zero; so the encodings are exactly the canonical strings that decode. */
  lemma ReencodeIff(s: Bytes)
    requires Decode(s).Ok?
    ensures Encode(Decode(s).value) == s <==> Canonical(s)
  {
    var n, q := DecodedLen(|s|), QuintetsOf(s);
    var v := Value(q, 32);
    var u := Unshifted(v, LeftoverBits(|s|));
    RegularLengths(|s|);
    LengthIdentity(n);
    QuintetsOfBelow(s);
    ValueBound(q, 32);
    UnshiftBound(v, n);
    ValueInverse(u, 256, n);
    ShiftBound(u, n);
    ValueInverse(Shifted(u, PadBits(n)), 32, |s|);
    OfValueInverse(q, 32);
    UnshiftInverseIff(v, PadBits(n));
    SymbolInverse(s, Quintets(Decode(s).value));
  }

  // ----------------------------------------------------- groups of five bytes

  lemma PadOfTail(n: nat)
    ensures EncodedLen(5 + n) == 8 + EncodedLen(n) && PadBits(5 + n) == PadBits(n)
  {
  }

  lemma ShiftSum(a: int, b: int, k: nat, p: int, w: int)
    requires p * Pow(2, k) == w
    ensures Shifted(a * p + b, k) == a * w + Shifted(b, k)
  {
    ShiftedIsProduct(a * p + b, k);
    ShiftedIsProduct(b, k);
    SumTimes(a, b, p, Pow(2, k), w);
  }

  lemma SumTimes(a: int, b: int, p: int, pad: int, w: int)
    requires p * pad == w
    ensures (a * p + b) * pad == a * w + b * pad
  {
    Distribute(a * p, b, pad);
    Associate(a, p, pad);
  }

  lemma Associate(a: int, b: int, c: int)
    ensures (a * b) * c == a * (b * c)
  {
  }

  lemma NumberSplits(va: int, vb: nat, m: nat, n: nat)
    requires vb < Pow(256, n)
    ensures OfValue(Shifted(va * Pow(256, n) + vb, PadBits(n)), 32, m + EncodedLen(n))
            == OfValue(va, 32, m) + OfValue(Shifted(vb, PadBits(n)), 32, EncodedLen(n))
  {
    PowsAgree(n, PadBits(n), EncodedLen(n));
    ShiftSum(va, vb, PadBits(n), Pow(256, n), Pow(32, EncodedLen(n)));
    ShiftBound(vb, n);
    OfValueJoin(va, Shifted(vb, PadBits(n)), 32, m, EncodedLen(n));
  }

  lemma GroupsAre(v: int, n: nat, pad: nat, len: nat)
    requires pad == PadBits(n) && len == EncodedLen(n)
    ensures Groups(v, n) == OfValue(Shifted(v, pad), 32, len)
  {
  }

  lemma GroupsSplit(va: int, vb: nat, k: nat, m: nat, n: nat)
    requires PadBits(k) == 0 && EncodedLen(k) == m
    requires PadBits(k + n) == PadBits(n) && EncodedLen(k + n) == m + EncodedLen(n)
    requires vb < Pow(256, n)
    ensures Groups(va * Pow(256, n) + vb, k + n) == Groups(va, k) + Groups(vb, n)
  {
    var pad, c := PadBits(n), EncodedLen(n);
    GroupsAre(va * Pow(256, n) + vb, k + n, pad, m + c);
    GroupsAre(va, k, 0, m);
    GroupsAre(vb, n, pad, c);
    NumberSplits(va, vb, m, n);
  }

  lemma QuintetsAre(b: Bytes, v: int, n: nat)
    requires v == Value(b, 256) && n == |b|
    ensures Quintets(b) == Groups(v, n)
  {
  }

  /** A leading group of five bytes is encoded on its own. */
  lemma GroupSplits(a: Bytes, b: Bytes)
    requires |a| == 5 && IsBytes(b)
    ensures Quintets(a + b) == Quintets(a) + Quintets(b)
  {
    var va, vb, k, n := Value(a, 256), Value(b, 256), |a|, |b|;
    ValueBound(b, 256);
    assert Quintets(a + b) == Groups(va * Pow(256, n) + vb, k + n) by {
      ValueJoin(a, b, 256);
      QuintetsAre(a + b, va * Pow(256, n) + vb, k + n);
    }
    assert Quintets(a) == Groups(va, k) by { QuintetsAre(a, va, k); }
    assert Quintets(b) == Groups(vb, n) by { QuintetsAre(b, vb, n); }
    PadOfTail(n);
    GroupsSplit(va, vb, k, 8, n);
  }

  lemma EncodeSplits(a: Bytes, b: Bytes)
    requires |a| == 5 && IsBytes(b)
    ensures Encode(a + b) == Encode(a) + Encode(b)
  {
    GroupSplits(a, b);
    SymbolsJoin(Quintets(a), Quintets(b));
  }
}
