/** Percent coding of text, as `URLEncode` and `URLDecode` do it. */
module Url {
  import opened Bytes
  import opened Options
  import opened Utf

  /** ASCII alphanumerics: `isalnum` in the "C" locale. */
  predicate IsAlnum(c: Byte) { 0x30 <= c <= 0x39 || 0x41 <= c <= 0x5A || 0x61 <= c <= 0x7A }

  const SPACE: Byte := 0x20
  const PLUS: Byte := 0x2B
  const PERCENT: Byte := 0x25

  /** The digit string "0123456789abcdef". */
  function Hex(d: int): Byte
    requires 0 <= d < 16
  {
    if d < 10 then 0x30 + d else 0x61 + (d - 10)
  }

  predicate IsHexDigit(c: Byte) { 0x30 <= c <= 0x39 || 0x41 <= c <= 0x46 || 0x61 <= c <= 0x66 }

  /** `HexToDec`: the value of a hexadecimal digit of either case, 0xff for any other character. */
  function HexToDec(c: Byte): (d: int)
    ensures 0 <= d < 16 || d == 0xFF
    ensures d == 0xFF <==> !IsHexDigit(c)
    ensures d < 16 ==> c == Hex(d) || (d >= 10 && c + 32 == Hex(d))
  {
    if 0x30 <= c <= 0x39 then c - 0x30
    else if 0x61 <= c <= 0x66 then c - 0x61 + 10
    else if 0x41 <= c <= 0x46 then c - 0x41 + 10
    else 0xFF
  }

  function EncodedByte(c: Byte): Bytes {
    if IsAlnum(c) then [c]
    else if c == SPACE then [PLUS]
    else [PERCENT, Hex(c / 16), Hex(c % 16)]
  }

  function Encoded(s: Bytes): Bytes {
    if s == [] then [] else EncodedByte(s[0]) + Encoded(s[1..])
  }

  method UrlEncode(text: Bytes) returns (res: Bytes)
    ensures res == Encoded(text)
  {
    hide Encoded;
    res := [];
    assert text[0..] == text && [] + Encoded(text) == Encoded(text);
    for i := 0 to |text|
      invariant res + Encoded(text[i..]) == Encoded(text)
    {
      ghost var before := res;
      EncodedCons(before, text[i..]);
      assert text[i..][1..] == text[i + 1..];
      if IsAlnum(text[i]) {
        res := res + [text[i]];
      } else if text[i] == SPACE {
        res := res + [PLUS];
      } else {
        res := res + [PERCENT];
        res := res + [Hex(text[i] / 16)];
        res := res + [Hex(text[i] % 16)];
      }
      assert res == before + EncodedByte(text[i]);
    }
    EncodedCons(res, []);
  }

  lemma EncodedCons(res: Bytes, t: Bytes)
    ensures t == [] ==> res + Encoded(t) == res
    ensures t != [] ==> res + Encoded(t) == (res + EncodedByte(t[0])) + Encoded(t[1..])
  {
  }

  // ---- decoding ----

  datatype Piece = Bad | Piece(length: nat, bytes: Bytes)

  /** What the text starts with: a plain character, "+", "%xx" or "%u0xxxx". */
  function FirstPiece(t: Bytes): (p: Piece)
    requires t != []
    ensures p.Piece? ==> 1 <= p.length <= |t| && |p.bytes| <= p.length
  {
    if t[0] == PLUS then Piece(1, [SPACE])
    else if t[0] != PERCENT then Piece(1, [t[0]])
    else if |t| < 2 then Bad
    else if t[1] == 0x75 || t[1] == 0x55 then
      if |t| < 7 || t[2] != 0x30 then Bad
      else
        var v1, v2, v3, v4 := HexToDec(t[3]), HexToDec(t[4]), HexToDec(t[5]), HexToDec(t[6]);
        if v1 == 0xFF || v2 == 0xFF || v3 == 0xFF || v4 == 0xFF then Bad
        else Piece(7, UnicodeCharToUtf8(4096 * v1 + 256 * v2 + 16 * v3 + v4))
    else if |t| < 3 then Bad
    else
      var v1, v2 := HexToDec(t[1]), HexToDec(t[2]);
      if v1 == 0xFF || v2 == 0xFF then Bad else Piece(3, [16 * v1 + v2])
  }

  /** The whole text, piece by piece; one bad piece spoils it. */
  function Decoded(t: Bytes): (r: Option<Bytes>)
    ensures r.Some? ==> |r.value| <= |t|
    decreases |t|
  {
    if t == [] then Some([])
    else match FirstPiece(t)
         case Bad => None
         case Piece(n, bytes) =>
           match Decoded(t[n..])
           case None => None
           case Some(rest) => Some(bytes + rest)
  }

  /** What the loop has appended before a prefix of the text was read. */
  function Prepend(bytes: Bytes, r: Option<Bytes>): Option<Bytes> {
    if r.None? then None else Some(bytes + r.value)
  }

  /** `URLDecode`: the flag says whether the text was well-formed. Every read is in range, and the result
      is never longer than the text. */
  method UrlDecode(text: Bytes) returns (ok: bool, res: Bytes)
    ensures ok <==> Decoded(text).Some?
    ensures ok ==> res == Decoded(text).value && |res| <= |text|
    ensures !ok ==> res == []
  {
    hide Decoded, UnicodeCharToUtf8, HexToDec, Prepend;
    res := [];
    var len, i := |text|, 0;
    Ends(text);
    assert text[0..] == text;
    while i < len
      invariant 0 <= i <= len
      invariant Prepend(res, Decoded(text[i..])) == Decoded(text)
    {
      ghost var t := text[i..];
      ghost var p := FirstPiece(t);
      PieceOff(res, t);
      assert p.Piece? ==> t[p.length..] == text[i + p.length..];
      if text[i] == PLUS {
        res := res + [SPACE];
        i := i + 1;
        continue;
      }
      if text[i] != PERCENT {
        res := res + [text[i]];
        i := i + 1;
        continue;
      }
      if i + 1 >= len {
        return false, [];
      }
      if text[i + 1] == 0x75 || text[i + 1] == 0x55 {
        if i + 6 >= len {
          return false, [];
        }
        if text[i + 2] != 0x30 {
          return false, [];
        }
        var v1 := HexToDec(text[i + 3]);
        var v2 := HexToDec(text[i + 4]);
        var v3 := HexToDec(text[i + 5]);
        var v4 := HexToDec(text[i + 6]);
        if v1 == 0xFF || v2 == 0xFF || v4 == 0xFF || v3 == 0xFF {
          return false, [];
        }
        res := res + UnicodeCharToUtf8(4096 * v1 + 256 * v2 + 16 * v3 + v4);
        i := i + 6;
      } else {
        if i + 2 >= len {
          return false, [];
        }
        var v1 := HexToDec(text[i + 1]);
        var v2 := HexToDec(text[i + 2]);
        if v1 == 0xFF || v2 == 0xFF {
          return false, [];
        }
        res := res + [16 * v1 + v2];
        i := i + 2;
      }
      i := i + 1;
    }
    assert text[len..] == [];
    ok := true;
  }

  lemma PieceOff(res: Bytes, t: Bytes)
    requires t != []
    ensures var p := FirstPiece(t);
            if p.Bad? then Prepend(res, Decoded(t)) == None
            else Prepend(res, Decoded(t)) == Prepend(res + p.bytes, Decoded(t[p.length..]))
  {
    hide FirstPiece;
    var p := FirstPiece(t);
    if p.Piece? {
      var r := Decoded(t[p.length..]);
      if r.Some? { assert res + (p.bytes + r.value) == (res + p.bytes) + r.value; }
    }
  }

  lemma Ends(t: Bytes)
    ensures Prepend([], Decoded(t)) == Decoded(t)
    ensures forall res :: Prepend(res, Decoded([])) == Some(res)
  {
    if Decoded(t).Some? { assert [] + Decoded(t).value == Decoded(t).value; }
    forall res ensures Prepend(res, Decoded([])) == Some(res) { assert res + [] == res; }
  }

  // ---- what is written and what is read, in characters ----

  predicate Alphanumeric(c: Byte) {
    || '0' as int <= c <= '9' as int || 'A' as int <= c <= 'Z' as int || 'a' as int <= c <= 'z' as int
  }

  predicate HexChar(c: Byte) {
    || '0' as int <= c <= '9' as int || 'A' as int <= c <= 'F' as int || 'a' as int <= c <= 'f' as int
  }

  /** Alphanumerics stay, a space becomes a plus, and any other byte a percent sign and two hexadecimal digits. */
  lemma ByteWritten(c: Byte)
    ensures var e := EncodedByte(c);
            if Alphanumeric(c) then e == [c]
            else if c == ' ' as int then e == ['+' as int]
            else |e| == 3 && e[0] == '%' as int && HexChar(e[1]) && HexChar(e[2])
  {
  }

  /** So the encoding has only alphanumerics, plus and percent signs, and a text is left alone exactly when it is
      alphanumeric. */
  lemma {:induction false} EncodedIsSafe(s: Bytes)
    ensures forall c <- Encoded(s) :: Alphanumeric(c) || c == '+' as int || c == '%' as int
    ensures |Encoded(s)| >= |s|
    ensures Encoded(s) == s <==> forall c <- s :: Alphanumeric(c)
  {
    if s == [] {
    } else {
      var e, rest := EncodedByte(s[0]), Encoded(s[1..]);
      ByteWritten(s[0]);
      EncodedIsSafe(s[1..]);
      hide EncodedByte;
      assert s == [s[0]] + s[1..];
      if e == [s[0]] {
        SameFirst(s[0], rest, s[1..]);
      } else if |e| == 1 {
        assert (e + rest)[0] != s[0];
      }
      assert forall c <- s :: c == s[0] || c in s[1..];
      assert s[0] in s && forall c <- s[1..] :: c in s;
    }
  }

  lemma SameFirst(c: Byte, a: Bytes, b: Bytes)
    ensures [c] + a == [c] + b <==> a == b
  {
    assert ([c] + a)[1..] == a && ([c] + b)[1..] == b;
  }

  /** Where a text does not go on: at a percent sign that begins neither two hexadecimal digits, nor "u0" and four. */
  lemma BadIff(t: Bytes)
    requires t != []
    ensures FirstPiece(t).Bad? <==>
              && t[0] == '%' as int
              && !(|t| >= 3 && HexChar(t[1]) && HexChar(t[2]))
              && !(|t| >= 7 && t[1] in {'u' as int, 'U' as int} && t[2] == '0' as int
                   && HexChar(t[3]) && HexChar(t[4]) && HexChar(t[5]) && HexChar(t[6]))
  {
  }

  /** An escaped character of four hexadecimal digits is read as its UTF-8 encoding, whatever follows. */
  lemma UnicodeEscape(a: int, b: int, c: int, d: int, rest: Bytes)
    requires 0 <= a < 16 && 0 <= b < 16 && 0 <= c < 16 && 0 <= d < 16
    ensures FirstPiece(['%' as int, 'u' as int, '0' as int, Hex(a), Hex(b), Hex(c), Hex(d)] + rest)
            == Piece(7, UnicodeCharToUtf8(16 * (16 * (16 * a + b) + c) + d))
  {
    hide UnicodeCharToUtf8;
    HexReadsBack(a);
    HexReadsBack(b);
    HexReadsBack(c);
    HexReadsBack(d);
    hide Hex, HexToDec;
  }

  // ---- there and back ----

  lemma HexReadsBack(d: int)
    requires 0 <= d < 16
    ensures HexToDec(Hex(d)) == d
  {
  }

  lemma FirstOfEncoded(c: Byte, rest: Bytes)
    ensures FirstPiece(EncodedByte(c) + rest) == Piece(|EncodedByte(c)|, [c])
  {
    HexReadsBack(c / 16);
    HexReadsBack(c % 16);
  }

  /** Every byte string survives being encoded and decoded. */
  lemma {:induction false} DecodeInvertsEncode(s: Bytes)
    ensures Decoded(Encoded(s)) == Some(s)
  {
    if s == [] {
    } else {
      var c, rest := s[0], Encoded(s[1..]);
      FirstOfEncoded(c, rest);
      assert (EncodedByte(c) + rest)[|EncodedByte(c)|..] == rest;
      DecodeInvertsEncode(s[1..]);
      assert [c] + s[1..] == s;
    }
  }

  lemma EncodeInjective(s: Bytes, t: Bytes)
    requires Encoded(s) == Encoded(t)
    ensures s == t
  {
    DecodeInvertsEncode(s);
    DecodeInvertsEncode(t);
  }
}
