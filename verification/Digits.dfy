/** Numbers as big-endian digit strings, the common ground of the base 32 and
    base 256 views of one bit string. */
module Digits {
  /** Byte strings; `IsBytes` says that every element is a byte. */
  type Bytes = seq<int>

  predicate IsBytes(b: Bytes) {
    AllBelow(b, 256)
  }

  predicate AllBelow(ds: seq<int>, base: int) {
    forall k :: 0 <= k < |ds| ==> 0 <= ds[k] < base
  }

  function Pow(base: int, e: nat): int {
    if e == 0 then 1 else base * Pow(base, e - 1)
  }

  function Value(ds: seq<int>, base: int): int {
    if ds == [] then 0 else Value(ds[..|ds| - 1], base) * base + ds[|ds| - 1]
  }

  function OfValue(v: int, base: int, len: nat): (ds: seq<int>)
    requires base > 0
    ensures |ds| == len && AllBelow(ds, base)
    decreases len
  {
    if len == 0 then [] else OfValue(v / base, base, len - 1) + [v % base]
  }

  lemma MulOrder(a: nat, b: nat, c: nat)
    requires a <= b
    ensures a * c <= b * c
  {
  }

  lemma DivModUnique(q: int, b: nat, r: nat)
    requires r < b
    ensures (q * b + r) / b == q && (q * b + r) % b == r
  {
    var x := q * b + r;
    assert x == (x / b) * b + x % b;
    assert (x / b - q) * b == r - x % b;
    if x / b > q {
      MulOrder(1, x / b - q, b);
    } else if x / b < q {
      MulOrder(1, q - x / b, b);
    }
  }

  lemma {:induction false} PowAdd(base: nat, a: nat, b: nat)
    ensures Pow(base, a + b) == Pow(base, a) * Pow(base, b)
  {
    if a > 0 {
      PowAdd(base, a - 1, b);
      assert base * (Pow(base, a - 1) * Pow(base, b)) == base * Pow(base, a - 1) * Pow(base, b);
    }
  }

  lemma {:induction false} PowPositive(base: int, e: nat)
    requires base > 0
    ensures Pow(base, e) > 0
  {
    if e > 0 {
      PowPositive(base, e - 1);
    }
  }

  lemma DivModSplit(v: nat, base: nat)
    requires base > 0
    ensures v == (v / base) * base + v % base
  {
  }

  lemma Distribute(a: int, b: int, c: int)
    ensures (a + b) * c == a * c + b * c
  {
  }

  lemma Rearrange(a: int, b: int, c: int)
    ensures a * (b * c) == (a * c) * b
  {
  }

  lemma HornerBound(v: nat, d: nat, base: nat, p: nat)
    requires v < p && d < base
    ensures 0 <= v * base + d < base * p
  {
    MulOrder(v + 1, p, base);
    assert (v + 1) * base == v * base + base;
  }

  lemma DivBound(v: nat, base: nat, p: nat)
    requires base > 0 && v < base * p
    ensures v / base < p
  {
    DivModSplit(v, base);
    if v / base >= p {
      MulOrder(p, v / base, base);
    }
  }

  lemma {:induction false} ValueBound(ds: seq<int>, base: nat)
    requires AllBelow(ds, base)
    ensures 0 <= Value(ds, base) < Pow(base, |ds|)
  {
    if ds != [] {
      var hi, d := ds[..|ds| - 1], ds[|ds| - 1];
      assert AllBelow(hi, base) && 0 <= d < base;
      ValueBound(hi, base);
      HornerBound(Value(hi, base), d, base, Pow(base, |hi|));
    }
  }

  lemma {:induction false} OfValueInverse(ds: seq<int>, base: nat)
    requires base > 0 && AllBelow(ds, base)
    ensures OfValue(Value(ds, base), base, |ds|) == ds
  {
    if ds != [] {
      var last := |ds| - 1;
      DivModUnique(Value(ds[..last], base), base, ds[last]);
      OfValueInverse(ds[..last], base);
    }
  }

  lemma {:induction false} ValueInverse(v: nat, base: nat, len: nat)
    requires base > 0 && v < Pow(base, len)
    ensures Value(OfValue(v, base, len), base) == v
    decreases len
  {
    if len > 0 {
      var q := v / base;
      assert OfValue(v, base, len) == OfValue(q, base, len - 1) + [v % base];
      DivBound(v, base, Pow(base, len - 1));
      ValueInverse(q, base, len - 1);
      ValueSnoc(OfValue(q, base, len - 1), v % base, base);
      DivModSplit(v, base);
    }
  }

  lemma ValueSnoc(ds: seq<int>, d: int, base: int)
    ensures Value(ds + [d], base) == Value(ds, base) * base + d
  {
    assert (ds + [d])[..|ds|] == ds;
  }

  lemma HornerJoin(hi: int, p: int, lo: int, d: int, base: int)
    ensures (hi * p + lo) * base + d == hi * (base * p) + (lo * base + d)
  {
    Distribute(hi * p, lo, base);
    Rearrange(hi, base, p);
  }

  lemma {:induction false} ValueJoin(a: seq<int>, b: seq<int>, base: int)
    ensures Value(a + b, base) == Value(a, base) * Pow(base, |b|) + Value(b, base)
  {
    if b == [] {
      assert a + b == a;
    } else {
      var init, d := b[..|b| - 1], b[|b| - 1];
      ValueJoin(a, init, base);
      HornerJoin(Value(a, base), Pow(base, |init|), Value(init, base), d, base);
      ValueSnoc(a + init, d, base);
      assert a + b == (a + init) + [d];
    }
  }

  lemma SplitLast(hi: int, lo: nat, base: nat, p: nat)
    requires base > 0
    ensures var v := hi * (base * p) + lo;
            v / base == hi * p + lo / base && v % base == lo % base
  {
    var q, r, x := lo / base, lo % base, hi * p;
    Rearrange(hi, base, p);
    DivModSplit(lo, base);
    Distribute(x, q, base);
    DivModUnique(x + q, base, r);
  }

  lemma {:induction false} OfValueJoin(hi: int, lo: nat, base: nat, m: nat, n: nat)
    requires base > 0 && lo < Pow(base, n)
    ensures OfValue(hi * Pow(base, n) + lo, base, m + n) == OfValue(hi, base, m) + OfValue(lo, base, n)
    decreases n
  {
    if n > 0 {
      SplitLast(hi, lo, base, Pow(base, n - 1));
      DivBound(lo, base, Pow(base, n - 1));
      OfValueJoin(hi, lo / base, base, m, n - 1);
    }
  }
}
