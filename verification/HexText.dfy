/** The text form of `Bytes` (bufs/encoding.go): hex digits, section 8 of RFC 4648,
    behind a 0x prefix, and the same inside a JSON string. */
module HexText {
  import opened Wrappers
  import opened Digits

  const ZERO := 48
  const LOWER_X := 120
  const UPPER_X := 88
  const QUOTE := 34

  /** The lower-case digit. */
  function HexDigit(v: int): int
    requires 0 <= v < 16
  {
    if v < 10 then 48 + v else 87 + v
  }

  function HexValue(c: int): Option<int> {
    if 48 <= c <= 57 then Some(c - 48)
    else if 97 <= c <= 102 then Some(c - 87)
    else if 65 <= c <= 70 then Some(c - 55)
    else None
  }

  function Hex(b: Bytes): (h: Bytes)
    requires IsBytes(b)
    ensures |h| == 2 * |b|
  {
    if b == [] then [] else [HexDigit(b[0] / 16), HexDigit(b[0] % 16)] + Hex(b[1..])
  }

  function Text(b: Bytes): Bytes
    requires IsBytes(b)
  {
    [ZERO, LOWER_X] + Hex(b)
  }

  function Unhex(h: Bytes): Option<Bytes> {
    if h == [] then Some([])
    else if |h| == 1 || HexValue(h[0]).None? || HexValue(h[1]).None? then None
    else
      match Unhex(h[2..])
      case None => None
      case Some(rest) => Some([HexValue(h[0]).value * 16 + HexValue(h[1]).value] + rest)
  }

  predicate HasPrefix(input: Bytes) {
    |input| >= 2 && input[0] == ZERO && (input[1] == LOWER_X || input[1] == UPPER_X)
  }

  /** checkText */
  function HexPart(input: Bytes): Bytes {
    if HasPrefix(input) then input[2..] else input
  }

  function Parse(input: Bytes): Option<Bytes> {
    Unhex(HexPart(input))
  }

  datatype JsonError = NonString | BadText

  predicate IsString(input: Bytes) {
    |input| >= 2 && input[0] == QUOTE && input[|input| - 1] == QUOTE
  }

  function ParseJson(input: Bytes): Result<Bytes, JsonError> {
    if !IsString(input) then Err(NonString)
    else
      match Parse(input[1..|input| - 1])
      case None => Err(BadText)
      case Some(b) => Ok(b)
  }

  // --------------------------------------------------------------- properties

  predicate IsHexText(h: Bytes) {
    |h| % 2 == 0 && forall i :: 0 <= i < |h| ==> HexValue(h[i]).Some?
  }

  function Lower(c: int): int {
    if 65 <= c <= 90 then c + 32 else c
  }

  function Lowered(h: Bytes): Bytes {
    seq(|h|, i requires 0 <= i < |h| => Lower(h[i]))
  }

  lemma {:induction false} UnhexHex(b: Bytes)
    requires IsBytes(b)
    ensures Unhex(Hex(b)) == Some(b)
  {
    if b != [] {
      UnhexHex(b[1..]);
      assert Hex(b)[2..] == Hex(b[1..]);
      assert b == [b[0]] + b[1..];
    }
  }

  /** What MarshalText writes, UnmarshalText reads back; also through JSON. */
  lemma RoundTrip(b: Bytes)
    requires IsBytes(b)
    ensures Parse(Text(b)) == Some(b)
    ensures ParseJson([QUOTE] + Text(b) + [QUOTE]) == Ok(b)
  {
    UnhexHex(b);
    assert Text(b)[2..] == Hex(b);
    var quoted := [QUOTE] + Text(b) + [QUOTE];
    assert quoted[1..|quoted| - 1] == Text(b);
  }

  lemma {:induction false} UnhexIff(h: Bytes)
    ensures Unhex(h).Some? <==> IsHexText(h)
    decreases |h|
  {
    if |h| >= 2 {
      var rest := h[2..];
      UnhexIff(rest);
      assert forall i :: 0 <= i < |rest| ==> rest[i] == h[i + 2];
      assert forall i :: 2 <= i < |h| ==> h[i] == rest[i - 2];
    }
  }

  lemma HexOfPair(hi: int, lo: int)
    requires 0 <= hi < 16 && 0 <= lo < 16
    ensures 0 <= hi * 16 + lo < 256 && (hi * 16 + lo) / 16 == hi && (hi * 16 + lo) % 16 == lo
  {
  }

  lemma LowerIsDigit(c: int)
    requires HexValue(c).Some?
    ensures 0 <= HexValue(c).value < 16 && HexDigit(HexValue(c).value) == Lower(c)
  {
  }

  lemma HexCons(hi: int, lo: int, b: Bytes)
    requires 0 <= hi < 16 && 0 <= lo < 16 && IsBytes(b)
    ensures IsBytes([hi * 16 + lo] + b)
    ensures Hex([hi * 16 + lo] + b) == [HexDigit(hi), HexDigit(lo)] + Hex(b)
  {
    HexOfPair(hi, lo);
    assert ([hi * 16 + lo] + b)[1..] == b;
  }

  lemma LoweredPair(h: Bytes)
    requires |h| >= 2
    ensures Lowered(h) == [Lower(h[0]), Lower(h[1])] + Lowered(h[2..])
  {
    var r := [Lower(h[0]), Lower(h[1])] + Lowered(h[2..]);
    assert forall i :: 0 <= i < |h| ==> r[i] == Lower(h[i]);
  }

  lemma {:induction false} HexUnhex(h: Bytes)
    requires Unhex(h).Some?
    ensures IsBytes(Unhex(h).value) && Hex(Unhex(h).value) == Lowered(h)
    decreases |h|
  {
    if h != [] {
      HexUnhex(h[2..]);
      LowerIsDigit(h[0]);
      LowerIsDigit(h[1]);
      HexCons(HexValue(h[0]).value, HexValue(h[1]).value, Unhex(h[2..]).value);
      LoweredPair(h);
    }
  }

  /** Accepted is exactly an even number of hex digits, in either case, behind an
      optional prefix; marshalling the value again gives the digits in lower case
      behind 0x. */
  lemma ParseIff(input: Bytes)
    ensures Parse(input).Some? <==> IsHexText(HexPart(input))
    ensures Parse(input).Some? ==>
              IsBytes(Parse(input).value) && Text(Parse(input).value) == [ZERO, LOWER_X] + Lowered(HexPart(input))
  {
    UnhexIff(HexPart(input));
    if Parse(input).Some? {
      HexUnhex(HexPart(input));
    }
  }

  /** Two accepted inputs mean the same bytes exactly when they differ at most in
      the prefix and in the case of their digits. */
  lemma SameValueIff(x: Bytes, y: Bytes)
    requires Parse(x).Some? && Parse(y).Some?
    ensures Parse(x) == Parse(y) <==> Lowered(HexPart(x)) == Lowered(HexPart(y))
  {
    HexUnhex(HexPart(x));
    HexUnhex(HexPart(y));
    UnhexHex(Parse(x).value);
    UnhexHex(Parse(y).value);
  }

  // ------------------------------------------------- character by character

  /** The characters '0' to '9', 'a' to 'f', and for the last six also 'A' to 'F'. */
  predicate IsDigit(c: int, v: int) {
    0 <= v < 16 && (c == "0123456789abcdef"[v] as int || c == "0123456789ABCDEF"[v] as int)
  }

  ghost predicate IsDigitChar(c: int) {
    exists v :: IsDigit(c, v)
  }

  lemma HexValueIff(c: int, v: int)
    ensures HexValue(c) == Some(v) <==> IsDigit(c, v)
  {
  }

  lemma HexDigitIs(v: int)
    requires 0 <= v < 16
    ensures HexDigit(v) == "0123456789abcdef"[v] as int
  {
  }

  /** The written text is 0x, then for every byte its high and its low digit. */
  lemma TextIs(b: Bytes, i: nat)
    requires IsBytes(b)
    ensures |Text(b)| == 2 + 2 * |b| && Text(b)[0] == '0' as int && Text(b)[1] == 'x' as int
    ensures i < |b| ==>
              && Text(b)[2 + 2 * i] == "0123456789abcdef"[b[i] / 16] as int
              && Text(b)[3 + 2 * i] == "0123456789abcdef"[b[i] % 16] as int
  {
    if i < |b| {
      HexAt(b, i);
      HexDigitIs(b[i] / 16);
      HexDigitIs(b[i] % 16);
      assert Text(b)[2 + 2 * i] == Hex(b)[2 * i] && Text(b)[3 + 2 * i] == Hex(b)[2 * i + 1];
    }
  }

  /** How many characters of a prefix are skipped. */
  function Skipped(input: Bytes): nat {
    if |input| >= 2 && input[0] == '0' as int && (input[1] == 'x' as int || input[1] == 'X' as int) then 2 else 0
  }

  lemma HexPartIs(input: Bytes)
    ensures HexPart(input) == input[Skipped(input)..]
  {
  }

  /** Accepted are exactly the texts with an even number of digit characters behind the
      prefix, if there is one. */
  lemma ParseAccepts(input: Bytes)
    ensures Parse(input).Some? <==>
              && (|input| - Skipped(input)) % 2 == 0
              && forall i :: Skipped(input) <= i < |input| ==> IsDigitChar(input[i])
  {
    var h, k := HexPart(input), Skipped(input);
    HexPartIs(input);
    UnhexIff(h);
    forall c ensures HexValue(c).Some? <==> IsDigitChar(c) {
      if HexValue(c).Some? {
        HexValueIff(c, HexValue(c).value);
      }
      if v :| IsDigit(c, v) {
        HexValueIff(c, v);
      }
    }
    assert forall i :: k <= i < |input| ==> input[i] == h[i - k];
    assert forall i :: 0 <= i < |h| ==> h[i] == input[i + k];
  }

  lemma {:induction false} UnhexAt(h: Bytes, i: nat)
    requires Unhex(h).Some? && 2 * i + 1 < |h|
    ensures HexValue(h[2 * i]).Some? && HexValue(h[2 * i + 1]).Some?
    ensures |h| == 2 * |Unhex(h).value|
    ensures Unhex(h).value[i] == 16 * HexValue(h[2 * i]).value + HexValue(h[2 * i + 1]).value
    decreases |h|
  {
    UnhexLength(h);
    if i > 0 {
      UnhexAt(h[2..], i - 1);
    }
  }

  lemma {:induction false} UnhexLength(h: Bytes)
    requires Unhex(h).Some?
    ensures |h| == 2 * |Unhex(h).value|
    decreases |h|
  {
    if h != [] {
      UnhexLength(h[2..]);
    }
  }

  /** Each byte read is sixteen times the place of its first digit plus the place of
      its second. */
  lemma ParseReads(input: Bytes, i: nat, hi: int, lo: int)
    requires Parse(input).Some? && Skipped(input) + 2 * i + 1 < |input|
    requires IsDigit(input[Skipped(input) + 2 * i], hi) && IsDigit(input[Skipped(input) + 2 * i + 1], lo)
    ensures |input| == Skipped(input) + 2 * |Parse(input).value|
    ensures Parse(input).value[i] == 16 * hi + lo
  {
    var k := Skipped(input);
    HexPartIs(input);
    UnhexAt(HexPart(input), i);
    HexValueIff(input[k + 2 * i], hi);
    HexValueIff(input[k + 2 * i + 1], lo);
  }

  /** A JSON value is read exactly between its quotes. */
  lemma JsonIs(input: Bytes)
    ensures var quoted := |input| >= 2 && input[0] == '"' as int && input[|input| - 1] == '"' as int;
            && (!quoted <==> ParseJson(input) == Err(NonString))
            && (quoted && Parse(input[1..|input| - 1]).None? <==> ParseJson(input) == Err(BadText))
            && forall v :: ParseJson(input) == Ok(v) <==> quoted && Parse(input[1..|input| - 1]) == Some(v)
  {
  }

  // ------------------------------------------------------------------ methods

  lemma {:induction false} HexAt(b: Bytes, i: nat)
    requires IsBytes(b) && i < |b|
    ensures Hex(b)[2 * i] == HexDigit(b[i] / 16) && Hex(b)[2 * i + 1] == HexDigit(b[i] % 16)
  {
    if i > 0 {
      HexAt(b[1..], i - 1);
    }
  }

  lemma {:induction false} UnhexSnoc(h: Bytes, hi: int, lo: int)
    requires Unhex(h).Some? && HexValue(hi).Some? && HexValue(lo).Some?
    ensures Unhex(h + [hi, lo]) == Some(Unhex(h).value + [HexValue(hi).value * 16 + HexValue(lo).value])
    decreases |h|
  {
    var last := HexValue(hi).value * 16 + HexValue(lo).value;
    if h == [] {
      var pair := h + [hi, lo];
      assert pair[0] == hi && pair[1] == lo && pair[2..] == [];
      assert Unhex(pair[2..]).value == [] && [last] + [] == Unhex(h).value + [last];
    } else {
      assert (h + [hi, lo])[2..] == h[2..] + [hi, lo];
      UnhexSnoc(h[2..], hi, lo);
      var first, rest := HexValue(h[0]).value * 16 + HexValue(h[1]).value, Unhex(h[2..]).value;
      assert [first] + (rest + [last]) == ([first] + rest) + [last];
    }
  }

  lemma UnhexPair(raw: Bytes, i: nat, dec: Bytes)
    requires i + 1 < |raw| && IsHexText(raw[..i]) && Unhex(raw[..i]) == Some(dec)
    requires HexValue(raw[i]).Some? && HexValue(raw[i + 1]).Some?
    ensures IsHexText(raw[..i + 2])
    ensures Unhex(raw[..i + 2]) == Some(dec + [HexValue(raw[i]).value * 16 + HexValue(raw[i + 1]).value])
  {
    UnhexSnoc(raw[..i], raw[i], raw[i + 1]);
    assert raw[..i + 2] == raw[..i] + [raw[i], raw[i + 1]];
  }

  class BytesValue {
    var b: Bytes

    constructor (b: Bytes)
      ensures this.b == b
    {
      this.b := b;
    }

    method MarshalText() returns (out: array<int>)
      requires IsBytes(b)
      ensures fresh(out) && out[..] == Text(b)
      ensures out.Length == 2 + 2 * |b| && out[0] == '0' as int && out[1] == 'x' as int
      ensures forall i :: 0 <= i < |b| ==>
                && out[2 + 2 * i] == "0123456789abcdef"[b[i] / 16] as int
                && out[3 + 2 * i] == "0123456789abcdef"[b[i] % 16] as int
    {
      out := new int[2 * |b| + 2](_ => 0);
      out[0], out[1] := ZERO, LOWER_X;
      var i := 0;
      while i < |b|
        invariant 0 <= i <= |b|
        invariant out[0] == ZERO && out[1] == LOWER_X
        invariant forall k :: 0 <= k < 2 * i ==> out[2 + k] == Hex(b)[k]
      {
        HexAt(b, i);
        out[2 + 2 * i], out[3 + 2 * i] := HexDigit(b[i] / 16), HexDigit(b[i] % 16);
        i := i + 1;
      }
      assert out[2..] == Hex(b);
      assert out[..] == [ZERO, LOWER_X] + out[2..];
      forall k | 0 <= k < |b|
        ensures out[2 + 2 * k] == "0123456789abcdef"[b[k] / 16] as int
        ensures out[3 + 2 * k] == "0123456789abcdef"[b[k] % 16] as int
      {
        TextIs(b, k);
        assert out[..][2 + 2 * k] == Text(b)[2 + 2 * k] && out[..][3 + 2 * k] == Text(b)[3 + 2 * k];
      }
    }

    method UnmarshalText(input: Bytes) returns (ok: bool)
      modifies this
      ensures ok <==> Parse(input).Some?
      ensures b == if ok then Parse(input).value else old(b)
    {
      ParseIff(input);
      var raw := HexPart(input);
      var dec := [];
      var i := 0;
      while i + 1 < |raw|
        invariant 0 <= i <= |raw| && i % 2 == 0
        invariant IsHexText(raw[..i]) && Unhex(raw[..i]) == Some(dec)
        invariant b == old(b)
      {
        var hi, lo := HexValue(raw[i]), HexValue(raw[i + 1]);
        if hi.None? || lo.None? {
          return false;
        }
        UnhexPair(raw, i, dec);
        dec := dec + [hi.value * 16 + lo.value];
        i := i + 2;
      }
      if |raw| % 2 == 1 {
        return false;
      }
      assert raw[..i] == raw;
      b := dec;
      ok := true;
    }

    method UnmarshalJSON(input: Bytes) returns (r: Option<JsonError>)
      modifies this
      ensures r.None? <==> ParseJson(input).Ok?
      ensures r.Some? ==> ParseJson(input) == Err(r.value)
      ensures b == if r.None? then ParseJson(input).value else old(b)
    {
      if !IsString(input) {
        return Some(NonString);
      }
      var ok := UnmarshalText(input[1..|input| - 1]);
      r := if ok then None else Some(BadText);
    }
  }
}
