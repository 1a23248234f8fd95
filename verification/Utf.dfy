/** Conversion between UTF-8 and big-endian UTF-16, as the code does it, against the grammar of RFC 3629
    section 4 and the encoding of RFC 2781 section 2.1. A u16string holding byte-swapped units is
    modelled by its bytes in memory. */
module Utf {
  import opened Bytes

  // ---- the standards ----

  predicate Tail(b: Byte) { 0x80 <= b <= 0xBF }

  /** One character of RFC 3629 section 4. */
  predicate WellFormed(c: Bytes) {
    match |c|
    case 1 => c[0] <= 0x7F
    case 2 => 0xC2 <= c[0] <= 0xDF && Tail(c[1])
    case 3 =>
      Tail(c[2]) && (|| (c[0] == 0xE0 && 0xA0 <= c[1] <= 0xBF) || (0xE1 <= c[0] <= 0xEC && Tail(c[1]))
                     || (c[0] == 0xED && 0x80 <= c[1] <= 0x9F) || (0xEE <= c[0] <= 0xEF && Tail(c[1])))
    case 4 =>
      Tail(c[2]) && Tail(c[3])
      && (|| (c[0] == 0xF0 && 0x90 <= c[1] <= 0xBF) || (0xF1 <= c[0] <= 0xF3 && Tail(c[1]))
          || (c[0] == 0xF4 && 0x80 <= c[1] <= 0x8F))
    case _ => false
  }

  /** What the code accepts beyond the grammar: after ED and F4 a second byte below the tail range. */
  predicate Lenient(c: Bytes) {
    || (|c| == 3 && c[0] == 0xED && c[1] < 0x80 && Tail(c[2]))
    || (|c| == 4 && c[0] == 0xF4 && c[1] < 0x80 && Tail(c[2]) && Tail(c[3]))
  }

  predicate Accepted(c: Bytes) { WellFormed(c) || Lenient(c) }

  /** The number a sequence stands for: the payload bits of its bytes, most significant first. Nothing
      accepted decodes to a surrogate or beyond U+10FFFF. */
  function Scalar(c: Bytes): (u: int)
    requires Accepted(c)
    ensures IsScalar(u)
    ensures u < 0x10000 <==> |c| < 4
  {
    match |c|
    case 1 => c[0]
    case 2 => 64 * Bits(c, 0, 0xC0) + Bits(c, 1, 0x80)
    case 3 => 4096 * Bits(c, 0, 0xE0) + 64 * Bits(c, 1, 0x80) + Bits(c, 2, 0x80)
    case _ => 262144 * Bits(c, 0, 0xF0) + 4096 * Bits(c, 1, 0x80) + 64 * Bits(c, 2, 0x80) + Bits(c, 3, 0x80)
  }

  /** What is left of byte `k` once its marker bits are taken off. */
  function Bits(c: Bytes, k: nat, marker: int): int
    requires k < |c|
  {
    c[k] - marker
  }

  predicate IsScalar(u: int) { 0 <= u < 0xD800 || 0xE000 <= u < 0x110000 }

  type Unit = x: int | 0 <= x < 0x10000

  function BigEndian(u: Unit): Bytes { [u / 256, u % 256] }

  /** RFC 2781 section 2.1, big-endian. */
  function Utf16(u: int): (r: Bytes)
    requires IsScalar(u)
    ensures |r| == if u < 0x10000 then 2 else 4
  {
    if u < 0x10000 then BigEndian(u)
    else BigEndian(0xD800 + (u - 0x10000) / 1024) + BigEndian(0xDC00 + (u - 0x10000) % 1024)
  }

  /** The length of the accepted sequence `s` starts with, or 0. */
  function Lead(s: Bytes): (n: nat)
    ensures n <= |s| && (n > 0 ==> Accepted(s[..n]))
  {
    if |s| >= 1 && Accepted(s[..1]) then 1
    else if |s| >= 2 && Accepted(s[..2]) then 2
    else if |s| >= 3 && Accepted(s[..3]) then 3
    else if |s| >= 4 && Accepted(s[..4]) then 4
    else 0
  }

  /** `s` cut into accepted sequences from the left, up to the first place where none starts. */
  function Chunks(s: Bytes): (cs: seq<Bytes>)
    ensures forall c <- cs :: Accepted(c)
  {
    var n := Lead(s);
    if n == 0 then [] else [s[..n]] + Chunks(s[n..])
  }

  function Transcoded(cs: seq<Bytes>): Bytes
    requires forall c <- cs :: Accepted(c)
  {
    if cs == [] then [] else Utf16(Scalar(cs[0])) + Transcoded(cs[1..])
  }

  // ---- the code ----

  /** `trailingBytesForUTF8`, by its six runs of equal entries. */
  function TrailingBytes(b: Byte): nat {
    if b < 0xC0 then 0 else if b < 0xE0 then 1 else if b < 0xF0 then 2
    else if b < 0xF8 then 3 else if b < 0xFC then 4 else 5
  }

  const OFFSETS: seq<int> := [0x0, 0x3080, 0xE2080, 0x3C82080, 0xFA082080, 0x82082080]

  /** `isLegalUTF8` on the `|c|` bytes at its argument. */
  predicate IsLegal(c: Bytes)
    requires |c| >= 1
  {
    && |c| <= 4
    && (|c| >= 4 ==> 0x80 <= c[3] <= 0xBF)
    && (|c| >= 3 ==> 0x80 <= c[2] <= 0xBF)
    && (|c| >= 2 ==> c[1] <= 0xBF &&
                     match c[0] {
                       case 0xE0 => c[1] >= 0xA0
                       case 0xED => c[1] <= 0x9F
                       case 0xF0 => c[1] >= 0x90
                       case 0xF4 => c[1] <= 0x8F
                       case _ => c[1] >= 0x80
                     })
    && !(0x80 <= c[0] < 0xC2)
    && c[0] <= 0xF4
  }

  /** On the byte count its table gives, the code's test accepts exactly the grammar and the lenient forms. */
  lemma LegalIffAccepted(c: Bytes)
    requires c != [] && |c| == TrailingBytes(c[0]) + 1
    ensures IsLegal(c) <==> Accepted(c)
  {
  }

  /** An accepted sequence has the length its first byte announces. */
  lemma AcceptedLength(c: Bytes)
    requires Accepted(c)
    ensures |c| == TrailingBytes(c[0]) + 1
  {
  }

  lemma LeadByTable(s: Bytes)
    requires s != []
    ensures var n := TrailingBytes(s[0]) + 1;
            Lead(s) == if n <= |s| && IsLegal(s[..n]) then n else 0
  {
    var n := TrailingBytes(s[0]) + 1;
    if n <= |s| { LegalIffAccepted(s[..n]); }
    var k := Lead(s);
    if k > 0 { AcceptedLength(s[..k]); }
  }

  const TWO32 := 0x1_0000_0000

  /** 32-bit unsigned wrap-around. */
  function Wrap(x: int): (r: int)
    ensures 0 <= x < TWO32 ==> r == x
  {
    x % TWO32
  }

  /** The fall-through switch: shift and add each byte, in 32 bits, then subtract the offset. */
  method Accumulate(c: Bytes) returns (ch: int)
    requires Accepted(c)
    ensures ch == Scalar(c)
  {
    ch := 0;
    var k := 0;
    var extra := TrailingBytes(c[0]);
    AcceptedLength(c);
    OffsetsAreMarkers(c);
    hide Scalar, Accepted, Wrap;
    while k < extra
      invariant 0 <= k <= extra
      invariant ch == Shifted(c, k)
    {
      ch := Wrap(ch + c[k]);
      ch := Wrap(ch * 64);
      k := k + 1;
    }
    ch := Wrap(ch + c[k]);
    ch := Wrap(ch - OFFSETS[extra]);
  }

  /** The accumulator after the first `k` bytes. */
  ghost function Shifted(c: Bytes, k: nat): (r: int)
    requires k <= |c| && k <= 3
    ensures 0 <= r <= [0, 16320, 1060800, 67907520][k]
  {
    if k == 0 then 0 else 64 * (Shifted(c, k - 1) + Bits(c, k - 1, 0))
  }

  /** The offset of each length is the sum of the shifted marker bits, so taking it off leaves the payload. */
  lemma OffsetsAreMarkers(c: Bytes)
    requires Accepted(c)
    ensures Shifted(c, |c| - 1) + c[|c| - 1] - OFFSETS[|c| - 1] == Scalar(c)
  {
    match |c|
    case 1 =>
    case 2 => assert Shifted(c, 1) == 64 * Bits(c, 0, 0);
    case 3 =>
      assert Shifted(c, 1) == 64 * Bits(c, 0, 0);
      assert Shifted(c, 2) == 64 * (Shifted(c, 1) + Bits(c, 1, 0));
    case _ =>
      assert Shifted(c, 1) == 64 * Bits(c, 0, 0);
      assert Shifted(c, 2) == 64 * (Shifted(c, 1) + Bits(c, 1, 0));
      assert Shifted(c, 3) == 64 * (Shifted(c, 2) + Bits(c, 2, 0));
  }

  /** The units written for one decoded value. The branches that would replace a surrogate or an
      out-of-range value by a space are dead. */
  method Units(value: int) returns (units: Bytes)
    requires IsScalar(value)
    ensures units == Utf16(value)
  {
    var ch := value;
    if ch <= 0xFFFF {
      if 0xD800 <= ch <= 0xDFFF {
        assert false;
      }
      units := BigEndian(ch);
    } else if ch > 0x10FFFF {
      assert false;
    } else {
      ch := ch - 0x10000;
      units := BigEndian(ch / 1024 + 0xD800) + BigEndian(ch % 1024 + 0xDC00);
    }
  }

  /** `UTF8ToRawBEUTF16`: the encoding of the longest accepted prefix. */
  method Utf8ToRawBEUtf16(s: Bytes) returns (out: Bytes)
    ensures out == Transcoded(Chunks(s))
  {
    hide Chunks, Transcoded, Lead, Accepted, IsLegal, TrailingBytes, Scalar, Utf16, IsScalar;
    out := [];
    var i := 0;
    assert s[0..] == s;
    while i < |s|
      invariant 0 <= i <= |s|
      invariant out + Transcoded(Chunks(s[i..])) == Transcoded(Chunks(s))
    {
      ghost var rest := s[i..];
      LeadByTable(rest);
      var extra := TrailingBytes(s[i]);
      if i + extra >= |s| {
        NoChunk(rest);
        return;
      }
      var c := s[i..i + extra + 1];
      assert rest[..extra + 1] == c;
      if !IsLegal(c) {
        NoChunk(rest);
        return;
      }
      ChunkOff(rest);
      assert rest[extra + 1..] == s[i + extra + 1..];
      var ch := Accumulate(c);
      var units := Units(ch);
      assert (out + units) + Transcoded(Chunks(s[i + extra + 1..]))
          == out + (units + Transcoded(Chunks(s[i + extra + 1..])));
      out := out + units;
      i := i + extra + 1;
    }
    NoChunk(s[i..]);
  }

  lemma NoChunk(s: Bytes)
    requires Lead(s) == 0
    ensures Transcoded(Chunks(s)) == []
  {
  }

  lemma ChunkOff(s: Bytes)
    requires Lead(s) > 0
    ensures var c := s[..Lead(s)];
            Transcoded(Chunks(s)) == Utf16(Scalar(c)) + Transcoded(Chunks(s[Lead(s)..]))
  {
    assert Chunks(s)[1..] == Chunks(s[Lead(s)..]);
  }

  /** `UnicodeCharToUtf8`, on a 32-bit unsigned argument. */
  function UnicodeCharToUtf8(u: int): (r: Bytes)
    requires 0 <= u < TWO32
  {
    if u < 0x80 then [u]
    else if u < 0x800 then [192 + u / 64, 128 + u % 64]
    else if Wrap(u - 0xD800) < 0x800 then []
    else if u < 0x10000 then [224 + u / 4096, 128 + (u / 64) % 64, 128 + u % 64]
    else if u < 0x110000 then [240 + u / 262144, 128 + (u / 4096) % 64, 128 + (u / 64) % 64, 128 + u % 64]
    else []
  }

  function UnitAt(raw: Bytes, i: nat): Unit
    requires 2 * i + 1 < |raw|
  {
    256 * Bits(raw, 2 * i, 0) + Bits(raw, 2 * i + 1, 0)
  }

  /** The first `n` units of `raw`, each taken for a whole character. */
  function FromUnits(raw: Bytes, n: nat): Bytes
    requires 2 * n <= |raw|
  {
    if n == 0 then [] else FromUnits(raw, n - 1) + UnicodeCharToUtf8(UnitAt(raw, n - 1))
  }

  method RawBEToUtf8(raw: Bytes, numShorts: nat) returns (out: Bytes)
    requires 2 * numShorts <= |raw|
    ensures out == FromUnits(raw, numShorts)
  {
    out := [];
    for i := 0 to numShorts
      invariant out == FromUnits(raw, i)
    {
      out := out + UnicodeCharToUtf8(UnitAt(raw, i));
    }
  }
}
