/** What the two conversions promise together. */
module UtfLaws {
  import opened Bytes
  import opened Options
  import opened Utf

  // ---- the accepted prefix ----

  ghost predicate AllAccepted(cs: seq<Bytes>) { forall c <- cs :: Accepted(c) }

  ghost predicate AllWellFormed(cs: seq<Bytes>) { forall c <- cs :: WellFormed(c) }

  lemma LeadOf(c: Bytes, rest: Bytes)
    requires Accepted(c)
    ensures Lead(c + rest) == |c|
  {
    AcceptedLength(c);
    LegalIffAccepted(c);
    LeadByTable(c + rest);
    assert (c + rest)[..|c|] == c;
  }

  /** Cutting is unambiguous: text put together from accepted sequences is cut back into them. */
  lemma {:induction false} ChunksOfFlatten(cs: seq<Bytes>, rest: Bytes)
    requires AllAccepted(cs)
    ensures Chunks(Flatten(cs) + rest) == cs + Chunks(rest)
  {
    hide Accepted;
    if cs == [] {
      assert Flatten(cs) + rest == rest;
    } else {
      var c, s := cs[0], Flatten(cs) + rest;
      assert s == c + (Flatten(cs[1..]) + rest);
      AcceptedLength(c);
      LeadOf(c, Flatten(cs[1..]) + rest);
      assert s[..|c|] == c && s[|c|..] == Flatten(cs[1..]) + rest;
      assert Chunks(s) == [c] + Chunks(s[|c|..]);
      hide Chunks, Lead;
      ChunksOfFlatten(cs[1..], rest);
      assert cs == [c] + cs[1..];
    }
  }

  lemma {:induction false} ChunksArePrefix(s: Bytes)
    ensures Flatten(Chunks(s)) <= s
    decreases |s|
  {
    hide Lead;
    var n := Lead(s);
    if n == 0 {
    } else {
      assert Chunks(s) == [s[..n]] + Chunks(s[n..]);
      assert Flatten(Chunks(s)) == s[..n] + Flatten(Chunks(s[n..])) by { assert Chunks(s)[1..] == Chunks(s[n..]); }
      hide Chunks, Flatten;
      ChunksArePrefix(s[n..]);
      assert s == s[..n] + s[n..];
    }
  }

  /** The converted part is the longest: every way of reading accepted sequences off the front of `s`
      is an initial part of the one used. */
  lemma LongestAcceptedPrefix(s: Bytes, cs: seq<Bytes>)
    requires AllAccepted(cs) && Flatten(cs) <= s
    ensures Flatten(Chunks(s)) <= s
    ensures cs <= Chunks(s) && |Flatten(cs)| <= |Flatten(Chunks(s))|
  {
    ChunksArePrefix(s);
    var rest := s[|Flatten(cs)|..];
    assert s == Flatten(cs) + rest;
    ChunksOfFlatten(cs, rest);
    FlattenConcat(cs, Chunks(rest));
  }

  // ---- one character ----

  /** The base-64 digits of a number, as the encoder takes them. */
  lemma Digits(u: int)
    requires u >= 0
    ensures u / 4096 == (u / 64) / 64 && u / 262144 == ((u / 64) / 64) / 64
    ensures u == 64 * (u / 64) + u % 64
    ensures u == 4096 * (u / 4096) + 64 * ((u / 64) % 64) + u % 64
    ensures u == 262144 * (u / 262144) + 4096 * ((u / 4096) % 64) + 64 * ((u / 64) % 64) + u % 64
  {
    var q := u / 64;
    var p := q / 64;
    assert u == 64 * q + u % 64 && q == 64 * p + q % 64 && p == 64 * (p / 64) + p % 64;
    Quotient(u, 4096, p, 64 * (q % 64) + u % 64);
    Quotient(u, 262144, p / 64, 4096 * (p % 64) + 64 * (q % 64) + u % 64);
  }

  lemma Quotient(u: int, d: int, q: int, r: int)
    requires d == 64 || d == 4096 || d == 262144
    requires u == d * q + r && 0 <= r < d
    ensures u / d == q && u % d == r
  {
    if d == 64 { assert u == 64 * q + r; } else if d == 4096 { assert u == 4096 * q + r; }
    else { assert u == 262144 * q + r; }
  }

  /** Encoding a scalar value gives the grammar's sequence for it, and only scalar values are encoded. */
  lemma EncodedIsWellFormed(u: int)
    requires 0 <= u < TWO32
    ensures var c := UnicodeCharToUtf8(u);
            if IsScalar(u) then WellFormed(c) && Scalar(c) == u else c == []
  {
    Digits(u);
    var c := UnicodeCharToUtf8(u);
    if 0x80 <= u < 0x800 {
      assert WellFormed(c) && Bits(c, 0, 0xC0) == u / 64 && Bits(c, 1, 0x80) == u % 64;
    } else if 0x800 <= u < 0x10000 && IsScalar(u) {
      SurrogateTest(u);
      ThreeBytes(u);
      assert Bits(c, 0, 0xE0) == u / 4096 && Bits(c, 1, 0x80) == (u / 64) % 64 && Bits(c, 2, 0x80) == u % 64;
    } else if 0x10000 <= u < 0x110000 {
      SurrogateTest(u);
      FourBytes(u);
      assert Bits(c, 0, 0xF0) == u / 262144 && Bits(c, 1, 0x80) == (u / 4096) % 64
          && Bits(c, 2, 0x80) == (u / 64) % 64 && Bits(c, 3, 0x80) == u % 64;
    } else if u >= 0x800 {
      SurrogateTest(u);
    }
  }

  /** The unsigned subtraction picks out exactly the surrogates. */
  lemma SurrogateTest(u: int)
    requires 0x800 <= u < TWO32
    ensures Wrap(u - 0xD800) < 0x800 <==> 0xD800 <= u < 0xE000
  {
  }

  lemma ThreeBytes(u: int)
    requires 0x800 <= u < 0x10000 && IsScalar(u)
    ensures WellFormed([224 + u / 4096, 128 + (u / 64) % 64, 128 + u % 64])
  {
    var a, b := u / 4096, (u / 64) % 64;
    Digits(u);
    assert 4096 * a + 64 * b <= u < 4096 * a + 64 * b + 64;
  }

  lemma FourBytes(u: int)
    requires 0x10000 <= u < 0x110000
    ensures WellFormed([240 + u / 262144, 128 + (u / 4096) % 64, 128 + (u / 64) % 64, 128 + u % 64])
  {
    var a, b := u / 262144, (u / 4096) % 64;
    Digits(u);
    assert 262144 * a + 4096 * b <= u < 262144 * a + 4096 * b + 4096;
  }

  lemma EncodeInvertsScalar(c: Bytes)
    requires WellFormed(c)
    ensures UnicodeCharToUtf8(Scalar(c)) == c
  {
    var u := Scalar(c);
    match |c|
    case 1 =>
    case 2 => Quotient(u, 64, Bits(c, 0, 0xC0), Bits(c, 1, 0x80));
    case 3 => InvertThree(c);
    case _ => InvertFour(c);
  }

  lemma InvertThree(c: Bytes)
    requires WellFormed(c) && |c| == 3
    ensures UnicodeCharToUtf8(Scalar(c)) == c
  {
    var u, a, b, z := Scalar(c), Bits(c, 0, 0xE0), Bits(c, 1, 0x80), Bits(c, 2, 0x80);
    assert u == 4096 * a + 64 * b + z;
    Quotient(u, 4096, a, 64 * b + z);
    Quotient(u, 64, 64 * a + b, z);
    Quotient(64 * a + b, 64, a, b);
    SurrogateTest(u);
  }

  lemma InvertFour(c: Bytes)
    requires WellFormed(c) && |c| == 4
    ensures UnicodeCharToUtf8(Scalar(c)) == c
  {
    var u, a, b, y, z := Scalar(c), Bits(c, 0, 0xF0), Bits(c, 1, 0x80), Bits(c, 2, 0x80), Bits(c, 3, 0x80);
    assert u == 262144 * a + 4096 * b + 64 * y + z;
    Quotient(u, 262144, a, 4096 * b + 64 * y + z);
    Quotient(u, 4096, 64 * a + b, 64 * y + z);
    Quotient(64 * a + b, 64, a, b);
    Quotient(u, 64, 4096 * a + 64 * b + y, z);
    Quotient(4096 * a + 64 * b + y, 64, 64 * a + b, y);
    SurrogateTest(u);
  }

  /** An accepted sequence is what its value encodes to exactly when it belongs to the grammar: the
      lenient forms are read, but never written. */
  lemma ReencodedIffWellFormed(c: Bytes)
    requires Accepted(c)
    ensures UnicodeCharToUtf8(Scalar(c)) == c <==> WellFormed(c)
  {
    if WellFormed(c) { EncodeInvertsScalar(c); } else { EncodedIsWellFormed(Scalar(c)); }
  }

  // ---- there and back ----

  lemma UnitOf(raw: Bytes, u: Unit, tail: Bytes, i: nat)
    requires raw == BigEndian(u) + tail && 2 * i + 1 < |tail|
    ensures UnitAt(raw, 0) == u && UnitAt(raw, i + 1) == UnitAt(tail, i)
  {
  }

  lemma UnitZero(u: Unit, tail: Bytes)
    ensures UnitAt(BigEndian(u) + tail, 0) == u
  {
  }

  /** Reading units off a text that starts with one unit. */
  lemma {:induction false} FromUnitsCons(u: Unit, tail: Bytes, n: nat)
    requires 2 * n <= |tail|
    ensures FromUnits(BigEndian(u) + tail, n + 1) == UnicodeCharToUtf8(u) + FromUnits(tail, n)
  {
    hide UnicodeCharToUtf8, UnitAt;
    var raw := BigEndian(u) + tail;
    UnitZero(u, tail);
    if n == 0 {
      assert FromUnits(raw, 1) == FromUnits(raw, 0) + UnicodeCharToUtf8(UnitAt(raw, 0));
    } else {
      FromUnitsCons(u, tail, n - 1);
      UnitOf(raw, u, tail, n - 1);
      assert FromUnits(raw, n + 1) == FromUnits(raw, n) + UnicodeCharToUtf8(UnitAt(raw, n));
    }
  }

  /** What one accepted character comes back as: nothing for each half of a surrogate pair. */
  function Returned(c: Bytes): Bytes
    requires Accepted(c)
  {
    if |c| < 4 then UnicodeCharToUtf8(Scalar(c)) else []
  }

  function AllReturned(cs: seq<Bytes>): Bytes
    requires AllAccepted(cs)
  {
    if cs == [] then [] else Returned(cs[0]) + AllReturned(cs[1..])
  }

  /** How many 16-bit units the characters take. */
  function UnitCount(cs: seq<Bytes>): nat {
    if cs == [] then 0 else (if |cs[0]| < 4 then 1 else 2) + UnitCount(cs[1..])
  }

  lemma BackFromOne(c: Bytes, tail: Bytes, n: nat)
    requires Accepted(c) && 2 * n <= |tail|
    ensures FromUnits(Utf16(Scalar(c)) + tail, n + (if |c| < 4 then 1 else 2)) == Returned(c) + FromUnits(tail, n)
  {
    hide UnicodeCharToUtf8, Scalar, Accepted, FromUnits;
    var u := Scalar(c);
    if u < 0x10000 {
      FromUnitsCons(u, tail, n);
    } else {
      var hi, lo := 0xD800 + (u - 0x10000) / 1024, 0xDC00 + (u - 0x10000) % 1024;
      assert Utf16(u) + tail == BigEndian(hi) + (BigEndian(lo) + tail);
      FromUnitsCons(lo, tail, n);
      FromUnitsCons(hi, BigEndian(lo) + tail, n + 1);
      EncodedIsWellFormed(hi);
      EncodedIsWellFormed(lo);
    }
  }

  /** The two facts about a list of characters that the induction carries along. */
  ghost predicate ReadsBack(cs: seq<Bytes>)
    requires AllAccepted(cs)
  {
    && |Transcoded(cs)| == 2 * UnitCount(cs)
    && FromUnits(Transcoded(cs), UnitCount(cs)) == AllReturned(cs)
  }

  lemma Unroll(cs: seq<Bytes>)
    requires cs != [] && AllAccepted(cs)
    ensures Transcoded(cs) == Utf16(Scalar(cs[0])) + Transcoded(cs[1..])
    ensures UnitCount(cs) == (if |cs[0]| < 4 then 1 else 2) + UnitCount(cs[1..])
    ensures AllReturned(cs) == Returned(cs[0]) + AllReturned(cs[1..])
  {
  }

  lemma ReadsBackStep(cs: seq<Bytes>)
    requires cs != [] && AllAccepted(cs) && ReadsBack(cs[1..])
    ensures ReadsBack(cs)
  {
    hide Scalar, Accepted, FromUnits, Utf16, Returned, Transcoded, UnitCount, AllReturned;
    Unroll(cs);
    BackFromOne(cs[0], Transcoded(cs[1..]), UnitCount(cs[1..]));
  }

  lemma {:induction false} BackFromTranscoded(cs: seq<Bytes>)
    requires AllAccepted(cs)
    ensures ReadsBack(cs)
  {
    if cs == [] {
    } else {
      BackFromTranscoded(cs[1..]);
      ReadsBackStep(cs);
    }
  }

  /** A character comes back no longer than it was, and unchanged exactly when it is of the grammar and at most
      U+FFFF. */
  lemma ReturnedIff(c: Bytes)
    requires Accepted(c)
    ensures |Returned(c)| <= |c| && (Returned(c) == c <==> WellFormed(c) && |c| < 4)
  {
    ReencodedIffWellFormed(c);
    if |c| < 4 { ReturnedLength(c); }
  }

  lemma ReturnedLength(c: Bytes)
    requires Accepted(c) && |c| < 4
    ensures |UnicodeCharToUtf8(Scalar(c))| <= |c|
  {
  }

  /** Since no character grows, the text comes back unchanged only if each of them does. */
  lemma {:induction false} AllReturnedIff(cs: seq<Bytes>)
    requires AllAccepted(cs)
    ensures |AllReturned(cs)| <= |Flatten(cs)|
    ensures AllReturned(cs) == Flatten(cs) <==> forall c <- cs :: WellFormed(c) && |c| < 4
  {
    hide Accepted, WellFormed, Returned;
    if cs == [] {
    } else {
      var a, b := AllReturned(cs[1..]), Flatten(cs[1..]);
      AllReturnedIff(cs[1..]);
      ReturnedIff(cs[0]);
      JoinedEqual(Returned(cs[0]), a, cs[0], b);
      assert forall c <- cs :: c == cs[0] || c in cs[1..];
      assert cs[0] in cs && forall c <- cs[1..] :: c in cs;
    }
  }

  lemma JoinedEqual(a: Bytes, b: Bytes, c: Bytes, d: Bytes)
    requires |a| <= |c| && |b| <= |d|
    ensures a + b == c + d <==> a == c && b == d
  {
    if a + b == c + d {
      assert (a + b)[..|a|] == a && (a + b)[|a|..] == b;
      assert (c + d)[..|c|] == c && (c + d)[|c|..] == d;
    }
  }

  /** Decoding as RFC 2781 section 2.2 has it: a unit outside the surrogates is a character, a high surrogate and
      the low one after it are one, and anything else is no text. */
  function Decode16(raw: Bytes): Option<seq<int>> {
    if raw == [] then Some([])
    else if |raw| < 2 then None
    else
      var w1 := 256 * Bits(raw, 0, 0) + Bits(raw, 1, 0);
      if w1 < 0xD800 || 0xDFFF < w1 then Behind(w1, Decode16(raw[2..]))
      else if w1 > 0xDBFF || |raw| < 4 then None
      else
        var w2 := 256 * Bits(raw, 2, 0) + Bits(raw, 3, 0);
        if w2 < 0xDC00 || 0xDFFF < w2 then None
        else Behind(0x10000 + (w1 % 1024) * 1024 + w2 % 1024, Decode16(raw[4..]))
  }

  function Behind(u: int, rest: Option<seq<int>>): Option<seq<int>> {
    match rest
    case None => None
    case Some(us) => Some([u] + us)
  }

  lemma DecodeOne(u: int, tail: Bytes)
    requires IsScalar(u)
    ensures Decode16(Utf16(u) + tail) == Behind(u, Decode16(tail))
  {
    var raw := Utf16(u) + tail;
    if u < 0x10000 {
      assert raw[2..] == tail;
    } else {
      assert raw[4..] == tail;
      var hi, lo := 0xD800 + (u - 0x10000) / 1024, 0xDC00 + (u - 0x10000) % 1024;
      assert raw[0] == hi / 256 && raw[1] == hi % 256 && raw[2] == lo / 256 && raw[3] == lo % 256;
      assert hi % 1024 == (u - 0x10000) / 1024 && lo % 1024 == (u - 0x10000) % 1024;
    }
  }

  function Scalars(cs: seq<Bytes>): seq<int>
    requires AllAccepted(cs)
  {
    if cs == [] then [] else [Scalar(cs[0])] + Scalars(cs[1..])
  }

  /** What is written is read by that decoder as the characters of the text. */
  lemma {:induction false} TranscodedDecodes(cs: seq<Bytes>)
    requires AllAccepted(cs)
    ensures Decode16(Transcoded(cs)) == Some(Scalars(cs))
  {
    hide Scalar, Accepted, Utf16;
    if cs == [] {
    } else {
      TranscodedDecodes(cs[1..]);
      DecodeOne(Scalar(cs[0]), Transcoded(cs[1..]));
    }
  }

  /** To UTF-16 and back, for any bytes: what comes back is made of the accepted sequences the text starts with,
      and the text survives if and only if it consists of sequences of the grammar, none above U+FFFF. */
  lemma Utf8RoundTrip(s: Bytes)
    ensures var utf16 := Transcoded(Chunks(s));
            && |utf16| == 2 * UnitCount(Chunks(s))
            && FromUnits(utf16, UnitCount(Chunks(s))) == AllReturned(Chunks(s))
    ensures var utf16 := Transcoded(Chunks(s));
            FromUnits(utf16, |utf16| / 2) == s
            <==> Flatten(Chunks(s)) == s && forall c <- Chunks(s) :: WellFormed(c) && |c| < 4
  {
    hide WellFormed, Lenient, FromUnits, Flatten, AllReturned, Transcoded, UnitCount, Chunks;
    BackFromTranscoded(Chunks(s));
    AllReturnedIff(Chunks(s));
    ChunksArePrefix(s);
  }

  /** The code points of at most 16 bits: those written in fewer than four bytes. */
  function Bmp(cs: seq<Bytes>): seq<Bytes> {
    if cs == [] then []
    else if |cs[0]| < 4 then [cs[0]] + Bmp(cs[1..])
    else Bmp(cs[1..])
  }

  /** A well-formed text loses exactly its code points above U+FFFF. */
  lemma {:induction false} WellFormedReturned(cs: seq<Bytes>)
    requires AllWellFormed(cs)
    ensures AllReturned(cs) == Flatten(Bmp(cs))
  {
    if cs == [] {
    } else {
      hide WellFormed, Lenient;
      WellFormedReturned(cs[1..]);
      ReturnedIff(cs[0]);
      if |cs[0]| < 4 { assert Bmp(cs)[1..] == Bmp(cs[1..]); }
    }
  }

  lemma WholeTextCut(cs: seq<Bytes>)
    requires AllAccepted(cs)
    ensures Chunks(Flatten(cs)) == cs
  {
    hide Accepted, Flatten, Lead;
    ChunksOfFlatten(cs, []);
    assert Flatten(cs) + [] == Flatten(cs) && cs + Chunks([]) == cs;
  }

  function UnitBytes(us: seq<Unit>): Bytes {
    if us == [] then [] else BigEndian(us[0]) + UnitBytes(us[1..])
  }

  function Encoded(us: seq<Unit>): seq<Bytes> {
    seq(|us|, i requires 0 <= i < |us| => UnicodeCharToUtf8(us[i]))
  }

  lemma {:induction false} EncodedUnits(us: seq<Unit>)
    requires forall u <- us :: IsScalar(u)
    ensures AllWellFormed(Encoded(us)) && Transcoded(Encoded(us)) == UnitBytes(us)
    ensures |UnitBytes(us)| == 2 * |us| && FromUnits(UnitBytes(us), |us|) == Flatten(Encoded(us))
  {
    if us == [] {
    } else {
      hide UnicodeCharToUtf8, Scalar;
      EncodedUnits(us[1..]);
      EncodedIsWellFormed(us[0]);
      assert Encoded(us)[1..] == Encoded(us[1..]);
      FromUnitsCons(us[0], UnitBytes(us[1..]), |us| - 1);
      forall c | c in Encoded(us) ensures WellFormed(c) {
        var i :| 0 <= i < |us| && Encoded(us)[i] == c;
        EncodedIsWellFormed(us[i]);
      }
    }
  }

  /** To UTF-8 and back: surrogate-free 16-bit text comes back unchanged. */
  lemma Utf16RoundTrip(us: seq<Unit>)
    requires forall u <- us :: IsScalar(u)
    ensures |UnitBytes(us)| == 2 * |us|
    ensures Transcoded(Chunks(FromUnits(UnitBytes(us), |us|))) == UnitBytes(us)
  {
    EncodedUnits(us);
    WholeTextCut(Encoded(us));
  }
}
