/** SmartMarshalToBase32 and SmartDecodeFromBase32 (bufs/encoding.go): encoding
    inside one scratch buffer, over the bytes that are being encoded. */
module Base32Buffers {
  import opened Wrappers
  import opened Base32
  import opened Digits

  // ------------------------------------------------------------------- sizing

  /** `(x + 7) &^ 7` */
  function RoundUp8(x: nat): nat { (x + 7) / 8 * 8 }

  function SafeSize(n: nat): nat { 4 + 4 * ((n + 2) / 3) }

  /** The size of the buffer in use for an item of `n` bytes, given the caller's. */
  function FinalSize(n: nat, capacity: nat): nat {
    if SafeSize(n) > capacity then RoundUp8(SafeSize(n)) else capacity
  }

  /** Four bytes for every three begun, and four more; rounded up to eight when allocated. */
  lemma SizesAre(n: nat)
    ensures SafeSize(n) % 4 == 0 && 4 * n <= 3 * (SafeSize(n) - 4) < 4 * n + 12
    ensures RoundUp8(n) % 8 == 0 && n <= RoundUp8(n) < n + 8
  {
  }

  predicate Fits(n: nat, capacity: nat) {
    EncodedLen(n) <= FinalSize(n, capacity)
  }

  ghost predicate FitsEveryBuffer(n: nat) {
    forall capacity: nat :: Fits(n, capacity)
  }

  /** The sizing formula covers every caller's buffer for exactly these sizes; 18
      is the first that fails, with a buffer of exactly 28 bytes. */
  lemma FitsEveryBufferIff(n: nat)
    ensures FitsEveryBuffer(n) <==> n <= 17 || n == 19 || n == 20 || n == 22 || n == 25
    ensures !Fits(18, 28)
  {
    assert FinalSize(n, SafeSize(n)) == SafeSize(n);
    assert FitsEveryBuffer(n) ==> Fits(n, SafeSize(n));
    assert FitsEveryBuffer(n) <==> EncodedLen(n) <= SafeSize(n);
  }

  /** Even a freshly allocated buffer is too small from 21 bytes on, but for nine
      sizes; a caller's buffer of the encoded length always does. */
  lemma FitsFreshBufferIff(n: nat)
    ensures Fits(n, 0) <==>
              n <= 20 || 22 <= n <= 25 || 28 <= n <= 30 || n == 34 || n == 35 || n == 40
    ensures forall capacity: nat :: SafeSize(n) <= capacity ==> (Fits(n, capacity) <==> EncodedLen(n) <= capacity)
  {
  }

  // ----------------------------------------------------------------- encoding

  type Coder = Bytes -> Bytes

  /** All that overlapping needs to know of the encoder: the length, and that whole
      groups of five bytes are encoded on their own. */
  function Code(enc: Coder, b: Bytes): Bytes {
    enc(b)
  }

  ghost predicate CodesByGroups(enc: Coder) {
    && (forall b :: |Code(enc, b)| == EncodedLen(|b|))
    && (forall a, b {:trigger Code(enc, a + b)} :: |a| % 5 == 0 && IsBytes(a) && IsBytes(b) ==> Code(enc, a + b) == Code(enc, a) + Code(enc, b))
  }

  ghost predicate SplitsOffGroups(enc: Coder) {
    && (forall b :: |Code(enc, b)| == EncodedLen(|b|))
    && forall a, b {:trigger Code(enc, a + b)} :: |a| == 5 && IsBytes(b) ==> Code(enc, a + b) == Code(enc, a) + Code(enc, b)
  }

  lemma {:induction false} GroupsAppend(enc: Coder, a: Bytes, b: Bytes)
    requires SplitsOffGroups(enc) && |a| % 5 == 0 && IsBytes(a) && IsBytes(b)
    ensures Code(enc, a + b) == Code(enc, a) + Code(enc, b)
  {
    if a == [] {
      assert a + b == b && |Code(enc, a)| == 0;
    } else {
      var head, tail := a[..5], a[5..];
      GroupsAppend(enc, tail, b);
      assert a == head + tail && a + b == head + (tail + b);
      assert Code(enc, head + (tail + b)) == Code(enc, head) + Code(enc, tail + b);
      assert Code(enc, head + tail) == Code(enc, head) + Code(enc, tail);
    }
  }

  lemma CodeIsEncode(b: Bytes)
    ensures Code(Encode, b) == Encode(b)
  {
  }

  lemma EncodeSplitsOff(a: Bytes, b: Bytes)
    requires |a| == 5 && IsBytes(b)
    ensures Code(Encode, a + b) == Code(Encode, a) + Code(Encode, b)
  {
    EncodeSplits(a, b);
    CodeIsEncode(a + b);
    CodeIsEncode(a);
    CodeIsEncode(b);
  }

  lemma EncodeSplitsOffGroups()
    ensures SplitsOffGroups(Encode)
  {
    forall b: Bytes ensures |Code(Encode, b)| == EncodedLen(|b|) {
      CodeIsEncode(b);
    }
    forall a: Bytes, b: Bytes | |a| == 5 && IsBytes(b) ensures Code(Encode, a + b) == Code(Encode, a) + Code(Encode, b) {
      EncodeSplitsOff(a, b);
    }
  }

  lemma GroupCoderCodes(enc: Coder)
    requires SplitsOffGroups(enc)
    ensures CodesByGroups(enc)
  {
    forall a: Bytes, b: Bytes | |a| % 5 == 0 && IsBytes(a) && IsBytes(b)
      ensures Code(enc, a + b) == Code(enc, a) + Code(enc, b)
    {
      GroupsAppend(enc, a, b);
    }
  }

  lemma EncodeCodesByGroups()
    ensures CodesByGroups(Encode)
  {
    EncodeSplitsOffGroups();
    GroupCoderCodes(Encode);
  }

  /** After `g` groups and `k` more bytes, the characters written end before the
      first unread byte. */
  lemma WritingStaysBehind(g: nat, k: nat, n: nat, src: nat)
    requires k == 5 || 5 * g + k == n
    requires 5 * g + k <= n && k <= 5 && EncodedLen(n) <= src + n
    ensures 8 * g + EncodedLen(k) <= src + 5 * g + k
    ensures 5 * g + k == n ==> 8 * g + EncodedLen(k) == EncodedLen(n)
    ensures EncodedLen(5) == 8
  {
  }

  function Overwritten(content: Bytes, at: nat, s: Bytes): (r: Bytes)
    requires at + |s| <= |content|
    ensures |r| == |content|
  {
    content[..at] + s + content[at + |s|..]
  }

  /** The first `read` bytes of the item are encoded at the start of the buffer,
      the others still lie where they were. */
  ghost predicate Progress(enc: Coder, content: Bytes, item: Bytes, src: nat, read: nat, written: nat) {
    && read <= |item| && src + |item| <= |content| && written <= src + read
    && content[src + read..src + |item|] == item[read..] && IsBytes(item)
    && content[..written] == Code(enc, item[..read])
  }

  lemma OneGroup(enc: Coder, item: Bytes, read: nat, k: nat)
    requires CodesByGroups(enc) && IsBytes(item) && read % 5 == 0 && read + k <= |item|
    ensures Code(enc, item[..read + k]) == Code(enc, item[..read]) + Code(enc, item[read..read + k])
    ensures |Code(enc, item[read..read + k])| == EncodedLen(k)
  {
    assert item[..read + k] == item[..read] + item[read..read + k];
  }

  lemma GroupProgress(enc: Coder, content: Bytes, item: Bytes, src: nat, read: nat, written: nat, k: nat)
    requires CodesByGroups(enc) && Progress(enc, content, item, src, read, written)
    requires read % 5 == 0 && read + k <= |item| && written + EncodedLen(k) <= src + read + k
    ensures var symbols := Code(enc, content[src + read..src + read + k]);
            && |symbols| == EncodedLen(k)
            && Progress(enc, Overwritten(content, written, symbols), item, src, read + k, written + EncodedLen(k))
  {
    var group := content[src + read..src + read + k];
    assert group == content[src + read..src + |item|][..k] == item[read..read + k];
    OneGroup(enc, item, read, k);
    var after := Overwritten(content, written, Code(enc, group));
    assert after[..written + EncodedLen(k)] == content[..written] + Code(enc, group);
    assert after[src + read + k..src + |item|] == content[src + read..src + |item|][k..];
    assert item[read..][k..] == item[read + k..];
  }

  /** Between groups, after `g` of them: either at a group boundary, or at the end. */
  predicate AtGroup(n: nat, g: nat, read: nat, written: nat) {
    read <= n && if read < n then read == 5 * g && written == 8 * g else written == EncodedLen(n)
  }

  lemma NextGroup(n: nat, g: nat, read: nat, written: nat, k: nat, src: nat)
    requires AtGroup(n, g, read, written) && read < n && EncodedLen(n) <= src + n
    requires k == if n - read < 5 then n - read else 5
    ensures read % 5 == 0 && written + EncodedLen(k) <= src + read + k
    ensures AtGroup(n, g + 1, read + k, written + EncodedLen(k))
  {
    WritingStaysBehind(g, k, n, src);
  }

  /** Left to right over groups of five bytes: read a group, then write its
      characters.  The bytes lie at `src`, the characters go to the start of the
      same buffer. */
  method EncodeInPlace(enc: Coder, buf: array<int>, src: nat, n: nat)
    requires CodesByGroups(enc)
    requires src + n <= buf.Length && EncodedLen(n) <= src + n && IsBytes(buf[src..src + n])
    modifies buf
    ensures buf[..EncodedLen(n)] == Code(enc, old(buf[src..src + n]))
  {
    ghost var item: Bytes := buf[src..src + n];
    var read: nat, written: nat := 0, 0;
    ghost var g: nat := 0;
    assert Progress(enc, buf[..], item, src, 0, 0) by {
      assert |Code(enc, item[..0])| == 0;
    }
    while read < n
      invariant Progress(enc, buf[..], item, src, read, written)
      invariant AtGroup(n, g, read, written)
      decreases n - read
    {
      read, written := EncodeGroup(enc, buf, item, src, n, read, written, g);
      g := g + 1;
    }
    assert item[..n] == item;
    assert buf[..][..written] == buf[..written];
  }

  /** Group number `g`: reads up to five bytes, then writes their characters. */
  method EncodeGroup(enc: Coder, buf: array<int>, ghost item: Bytes, src: nat, n: nat,
                     read: nat, written: nat, ghost g: nat)
    returns (read': nat, written': nat)
    requires CodesByGroups(enc) && Progress(enc, buf[..], item, src, read, written)
    requires |item| == n && EncodedLen(n) <= src + n && read < n && AtGroup(n, g, read, written)
    modifies buf
    ensures Progress(enc, buf[..], item, src, read', written')
    ensures AtGroup(n, g + 1, read', written') && read < read'
  {
    var k := if n - read < 5 then n - read else 5;
    NextGroup(n, g, read, written, k, src);
    Transcode(enc, buf, item, src, read, written, k);
    read', written' := read + k, written + EncodedLen(k);
  }

  method Transcode(enc: Coder, buf: array<int>, ghost item: Bytes, src: nat, read: nat, written: nat, k: nat)
    requires CodesByGroups(enc) && Progress(enc, buf[..], item, src, read, written)
    requires read % 5 == 0 && read + k <= |item| && written + EncodedLen(k) <= src + read + k
    modifies buf
    ensures Progress(enc, buf[..], item, src, read + k, written + EncodedLen(k))
  {
    ghost var content := buf[..];
    GroupProgress(enc, content, item, src, read, written, k);
    var group := buf[src + read..src + read + k];
    assert group == content[src + read..src + read + k];
    WriteSymbols(buf, written, Code(enc, group));
  }

  method WriteSymbols(buf: array<int>, at: nat, symbols: Bytes)
    requires at + |symbols| <= buf.Length
    modifies buf
    ensures buf[..] == Overwritten(old(buf[..]), at, symbols)
  {
    var i := 0;
    while i < |symbols|
      invariant 0 <= i <= |symbols|
      invariant forall j :: 0 <= j < buf.Length ==>
                  buf[j] == if at <= j < at + i then symbols[j - at] else old(buf[j])
    {
      buf[at + i] := symbols[i];
      i := i + 1;
    }
  }

  /** MarshalToSizedBuffer: the item's bytes, at the right end of the buffer. */
  method MarshalAt(buf: array<int>, at: nat, item: Bytes)
    requires at + |item| <= buf.Length
    modifies buf
    ensures buf[at..at + |item|] == item
  {
    var i := 0;
    while i < |item|
      invariant 0 <= i <= |item|
      invariant forall j :: 0 <= j < i ==> buf[at + j] == item[j]
    {
      buf[at + i] := item[i];
      i := i + 1;
    }
  }

  method EncodeBase32InPlace(buf: array<int>, src: nat, n: nat)
    requires src + n <= buf.Length && EncodedLen(n) <= src + n && IsBytes(buf[src..src + n])
    modifies buf
    ensures buf[..EncodedLen(n)] == Encode(old(buf[src..src + n]))
  {
    EncodeCodesByGroups();
    EncodeInPlace(Encode, buf, src, n);
  }

  /** The caller's buffer where it is large enough for the sizing formula, else a new one. */
  method BufferFor(binSz: nat, tryDst: array<int>) returns (dst: array<int>)
    ensures dst.Length == FinalSize(binSz, tryDst.Length)
    ensures if SafeSize(binSz) <= tryDst.Length then dst == tryDst else fresh(dst)
  {
    dst := tryDst;
    if SafeSize(binSz) > tryDst.Length {
      dst := new int[RoundUp8(SafeSize(binSz))](_ => 0);
    }
  }

  /** `None` is the slice-bounds panic of `tryDst[:encSz]`. */
  method EncodeInto(dst: array<int>, item: Bytes) returns (r: Option<nat>)
    requires IsBytes(item) && |item| <= dst.Length
    modifies dst
    ensures r.Some? <==> EncodedLen(|item|) <= dst.Length
    ensures r.Some? ==> r.value <= dst.Length && dst[..r.value] == Encode(item)
  {
    var binSz := |item|;
    MarshalAt(dst, dst.Length - binSz, item);
    var encSz := EncodedLen(binSz);
    if encSz > dst.Length {
      return None;
    }
    EncodeBase32InPlace(dst, dst.Length - binSz, binSz);
    r := Some(encSz);
  }

  method SmartMarshalToBase32(item: Bytes, tryDst: array<int>) returns (dst: array<int>, r: Option<nat>)
    requires IsBytes(item)
    modifies tryDst
    ensures r.Some? <==> Fits(|item|, tryDst.Length)
    ensures r.Some? ==> r.value <= dst.Length && dst[..r.value] == Encode(item)
    ensures if SafeSize(|item|) <= tryDst.Length then dst == tryDst else fresh(dst) && tryDst[..] == old(tryDst[..])
    ensures fresh(dst) ==> dst.Length == RoundUp8(SafeSize(|item|))
  {
    dst := BufferFor(|item|, tryDst);
    ItemFits(|item|, tryDst.Length);
    r := EncodeInto(dst, item);
  }

  lemma ItemFits(n: nat, capacity: nat)
    ensures n <= FinalSize(n, capacity)
  {
  }

  /** Decodes into the caller's buffer, or into a new one when it is too small. */
  method SmartDecodeFromBase32(src: Bytes, tryDst: array<int>)
    returns (dst: array<int>, r: Result<nat, DecodeError>)
    modifies tryDst
    ensures r.Ok? <==> Decode(src).Ok?
    ensures r.Ok? ==> r.value <= dst.Length && dst[..r.value] == Decode(src).value
    ensures r.Err? ==> r.error == Decode(src).error
    ensures if DecodedLen(|src|) <= tryDst.Length then dst == tryDst else fresh(dst) && tryDst[..] == old(tryDst[..])
    ensures fresh(dst) ==> dst.Length == RoundUp8(DecodedLen(|src|))
  {
    var binSz := DecodedLen(|src|);
    dst := tryDst;
    if binSz > tryDst.Length {
      dst := new int[RoundUp8(binSz)](_ => 0);
    }
    match Decode(src) {
      case Err(e) =>
        r := Err(e);
      case Ok(bytes) =>
        var i := 0;
        while i < binSz
          invariant 0 <= i <= binSz <= dst.Length && dst[..i] == bytes[..i]
          invariant dst != tryDst ==> tryDst[..] == old(tryDst[..])
        {
          dst[i] := bytes[i];
          i := i + 1;
        }
        r := Ok(binSz);
    }
  }
}
