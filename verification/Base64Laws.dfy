/** Decoding inverts encoding, with or without foreign characters strewn into the text. */
module Base64Laws {
  import opened Base64
  import opened Base64Decode

  lemma SymbolReadsBack(v: Octet)
    requires v < 64
    ensures UnBase64(Symbol(v)) == Data(v)
  {
  }

  // ---- the numbers behind an encoding ----

  function Sextets(s: Octets): (vs: Octets)
    ensures |vs| == DataLength(|s|)
  {
    seq(DataLength(|s|), i requires 0 <= i < DataLength(|s|) => Sextet(Group(s, i / 4), i % 4))
  }

  lemma {:induction false} NumbersOfSymbols(t: Octets, vs: Octets)
    requires SixBits(vs) && |vs| <= |t| && forall i :: 0 <= i < |vs| ==> t[i] == Symbol(vs[i])
    requires |vs| == |t| || t[|vs|] == PAD
    ensures Numbers(t) == vs
    decreases |vs|
  {
    hide Symbol;
    if vs == [] {
    } else {
      SymbolReadsBack(vs[0]);
      assert forall i :: 0 <= i < |vs[1..]| ==> t[1..][i] == t[i + 1] && vs[1..][i] == vs[i + 1];
      hide UnBase64;
      NumbersOfSymbols(t[1..], vs[1..]);
    }
  }

  lemma NumbersOfEncoded(s: Octets)
    ensures Numbers(Encoded(s)) == Sextets(s)
  {
    hide Symbol, Sextet, Group;
    var vs, t := Sextets(s), Encoded(s);
    LengthsMatch(|s|);
    forall i | 0 <= i < |vs| ensures t[i] == Symbol(vs[i]) {
    }
    NumbersOfSymbols(t, vs);
  }

  lemma LengthsMatch(n: nat)
    ensures DataLength(n) <= TextLength(n)
    ensures 6 * DataLength(n) / 8 == n
  {
    var q, r := n / 3, n % 3;
    assert n == 3 * q + r;
  }

  // ---- groups survive the trip ----

  lemma Rejoined(g: bv24)
    ensures JoinedQuad(Sextet(g, 0), Sextet(g, 1), Sextet(g, 2), Sextet(g, 3)) == g
  {
  }

  lemma BytesOfGroup(a: Octet, b: Octet, c: Octet)
    ensures ByteOf(Joined(a, b, c), 0) == a && ByteOf(Joined(a, b, c), 1) == b && ByteOf(Joined(a, b, c), 2) == c
  {
  }

  lemma MissingAreZero(a: Octet, b: Octet)
    ensures Sextet(Joined(a, b, 0), 3) == 0
    ensures Sextet(Joined(a, 0, 0), 2) == 0
  {
  }

  lemma QuadIsGroup(s: Octets, q: nat)
    requires 3 * q < |s|
    ensures Quad(Sextets(s), q) == Group(s, q)
  {
    hide Sextet, Joined, JoinedQuad, DataLength;
    var vs := Sextets(s);
    var a, b, c := At(s, 3 * q), At(s, 3 * q + 1), At(s, 3 * q + 2);
    Positions(q);
    Lengths(|s|, q);
    Rejoined(Group(s, q));
    MissingAreZero(a, b);
  }

  lemma DecodedSextets(s: Octets)
    ensures Decoded(Sextets(s)) == s
  {
    hide Sextet, Joined, Quad, ByteOf, DataLength;
    LengthsMatch(|s|);
    forall j | 0 <= j < |s| ensures ByteAt(Sextets(s), j) == s[j] {
      var q := j / 3;
      assert j == 3 * q + j % 3;
      QuadIsGroup(s, q);
      BytesOfGroup(At(s, 3 * q), At(s, 3 * q + 1), At(s, 3 * q + 2));
    }
  }

  // ---- the theorem ----

  /** `t` without the characters the decoder skips. */
  function Stripped(t: Octets): Octets {
    if t == [] then []
    else if UnBase64(t[0]).Skip? then Stripped(t[1..])
    else [t[0]] + Stripped(t[1..])
  }

  lemma {:induction false} SkippedDoNotMatter(t: Octets)
    ensures Numbers(t) == Numbers(Stripped(t))
  {
    hide UnBase64;
    if t == [] {
    } else {
      SkippedDoNotMatter(t[1..]);
      if !UnBase64(t[0]).Skip? { assert Stripped(t)[1..] == Stripped(t[1..]); }
    }
  }

  /** Any text that is the encoding of `s` once the characters outside the alphabet are dropped decodes
      to `s`, for every byte string `s`. */
  lemma DecodeInvertsEncode(s: Octets, t: Octets)
    requires Stripped(t) == Encoded(s)
    ensures Decoded(Numbers(t)) == s
  {
    hide Decoded, Numbers, Stripped, Encoded, Sextets;
    SkippedDoNotMatter(t);
    NumbersOfEncoded(s);
    DecodedSextets(s);
  }

  /** The encoding itself holds nothing to skip. */
  lemma EncodedIsStripped(s: Octets)
    ensures Stripped(Encoded(s)) == Encoded(s)
  {
    hide Symbol, Sextet, Group, DataLength, UnBase64;
    forall i | 0 <= i < |Encoded(s)| ensures !UnBase64(Encoded(s)[i]).Skip? {
      assert UnBase64(PAD) == Pad by { PadReadsBack(); }
      if i < DataLength(|s|) { SymbolReadsBack(Sextet(Group(s, i / 4), i % 4)); }
    }
    NothingToStrip(Encoded(s));
  }

  lemma PadReadsBack()
    ensures UnBase64(PAD) == Pad
  {
  }

  lemma {:induction false} NothingToStrip(t: Octets)
    requires forall i :: 0 <= i < |t| ==> !UnBase64(t[i]).Skip?
    ensures Stripped(t) == t
  {
    hide UnBase64;
    if t == [] {
    } else {
      assert forall i :: 0 <= i < |t[1..]| ==> t[1..][i] == t[i + 1];
      NothingToStrip(t[1..]);
    }
  }
}
