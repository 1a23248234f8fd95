/** Base64 as the code writes and reads it, against RFC 4648 section 4. Characters and bytes are 8-bit
    words, so shifts and `|` are the machine's own. */
module Base64 {
  type Octet = bv8

  type Octets = seq<Octet>

  // ---- RFC 4648 section 4 ----

  const PAD: Octet := 0x3D

  /** Table 1: A-Z, a-z, 0-9, '+', '/'. The code's BASE64 array spells the same five runs out. */
  function Symbol(v: Octet): Octet
    requires v < 64
  {
    if v < 26 then 0x41 + v
    else if v < 52 then 0x61 + (v - 26)
    else if v < 62 then 0x30 + (v - 52)
    else if v == 62 then 0x2B
    else 0x2F
  }

  function At(s: Octets, i: nat): Octet { if i < |s| then s[i] else 0 }

  /** The q-th 24-bit group of the input, short groups filled up with zero bits on the right. */
  function Group(s: Octets, q: nat): bv24 {
    Joined(At(s, 3 * q), At(s, 3 * q + 1), At(s, 3 * q + 2))
  }

  function Joined(a: Octet, b: Octet, c: Octet): bv24 {
    ((a as bv24) << 16) | ((b as bv24) << 8) | (c as bv24)
  }

  /** The k-th of a group's four 6-bit numbers, from the most significant end. */
  function Sextet(g: bv24, k: nat): (v: Octet)
    requires k < 4
    ensures v < 64
  {
    match k
    case 0 => (g >> 18) as Octet
    case 1 => ((g >> 12) & 63) as Octet
    case 2 => ((g >> 6) & 63) as Octet
    case _ => (g & 63) as Octet
  }

  /** How many characters carry data; the rest of the last quantum is padding. */
  function DataLength(n: nat): nat { 4 * (n / 3) + (if n % 3 == 0 then 0 else n % 3 + 1) }

  function TextLength(n: nat): nat { (n + 2) / 3 * 4 }

  /** The i-th character of the encoding of `s`. */
  function CharAt(s: Octets, i: nat): Octet {
    if i < DataLength(|s|) then Symbol(Sextet(Group(s, i / 4), i % 4)) else PAD
  }

  function Encoded(s: Octets): (t: Octets)
    ensures |t| == TextLength(|s|)
  {
    seq(TextLength(|s|), i requires 0 <= i < TextLength(|s|) => CharAt(s, i))
  }

  /** The alphabet, in characters. */
  lemma SymbolChars(v: Octet)
    requires v < 64
    ensures var c := Symbol(v) as int;
            if v < 26 then c == 'A' as int + v as int
            else if v < 52 then c == 'a' as int + (v as int - 26)
            else if v < 62 then c == '0' as int + (v as int - 52)
            else c == if v == 62 then '+' as int else '/' as int
  {
  }

  /** The encoding is as long as it must be to hold six bits in a character, filled up to a multiple of four. */
  lemma EncodedLength(s: Octets)
    ensures var n := |Encoded(s)|; n % 4 == 0 && 6 * n >= 8 * |s| && 6 * (n - 4) < 8 * |s|
    ensures forall i :: 0 <= i < |Encoded(s)| ==> (Encoded(s)[i] == '=' as int as bv8 <==> 6 * i >= 8 * |s|)
  {
    forall i | 0 <= i < |Encoded(s)| ensures Encoded(s)[i] == PAD <==> 6 * i >= 8 * |s| {
      var n := |s|;
      assert n == 3 * (n / 3) + n % 3;
      if i < DataLength(n) { SymbolChars(Sextet(Group(s, i / 4), i % 4)); }
    }
  }

  // ---- Base64Encode ----

  // The four table indices as the code computes them from a quantum's bytes.

  function First(a: Octet): (v: Octet)
    ensures v < 64
  {
    a >> 2
  }

  function Second(a: Octet, b: Octet): (v: Octet)
    ensures v < 64
  {
    ((a << 4) | (b >> 4)) & 63
  }

  function Third(b: Octet, c: Octet): (v: Octet)
    ensures v < 64
  {
    ((b << 2) | (c >> 6)) & 63
  }

  function Fourth(c: Octet): (v: Octet)
    ensures v < 64
  {
    c & 63
  }

  /** They are the 6-bit numbers of the 24-bit group. */
  lemma IndicesAreSextets(a: Octet, b: Octet, c: Octet)
    ensures Sextet(Joined(a, b, c), 0) == First(a)
    ensures Sextet(Joined(a, b, c), 1) == Second(a, b)
    ensures Sextet(Joined(a, b, c), 2) == Third(b, c)
    ensures Sextet(Joined(a, b, c), 3) == Fourth(c)
  {
  }

  lemma Positions(q: nat)
    ensures (4 * q) / 4 == q && (4 * q) % 4 == 0 && (4 * q + 1) / 4 == q && (4 * q + 1) % 4 == 1
    ensures (4 * q + 2) / 4 == q && (4 * q + 2) % 4 == 2 && (4 * q + 3) / 4 == q && (4 * q + 3) % 4 == 3
  {
  }

  lemma Lengths(n: nat, q: nat)
    ensures 3 * q + 3 <= n ==> 4 * q + 4 <= DataLength(n)
    ensures 3 * q < n < 3 * q + 3 ==> DataLength(n) == 4 * q + (n - 3 * q) + 1
  {
  }

  /** A full quantum's four characters. */
  lemma FullQuantum(s: Octets, q: nat)
    requires 3 * q + 2 < |s|
    ensures var a, b, c := s[3 * q], s[3 * q + 1], s[3 * q + 2];
            && CharAt(s, 4 * q) == Symbol(First(a)) && CharAt(s, 4 * q + 1) == Symbol(Second(a, b))
            && CharAt(s, 4 * q + 2) == Symbol(Third(b, c)) && CharAt(s, 4 * q + 3) == Symbol(Fourth(c))
  {
    hide Symbol, Sextet, Joined, First, Second, Third, Fourth, DataLength;
    IndicesAreSextets(s[3 * q], s[3 * q + 1], s[3 * q + 2]);
    Positions(q);
    Lengths(|s|, q);
  }

  /** The last quantum of an input that is not a multiple of three. */
  lemma ShortQuantum(s: Octets, q: nat)
    requires 3 * q < |s| < 3 * q + 3
    ensures var a, b := s[3 * q], At(s, 3 * q + 1);
            && CharAt(s, 4 * q) == Symbol(First(a)) && CharAt(s, 4 * q + 1) == Symbol(Second(a, b))
            && CharAt(s, 4 * q + 2) == (if |s| == 3 * q + 1 then PAD else Symbol(Third(b, 0)))
            && CharAt(s, 4 * q + 3) == PAD
  {
    hide Symbol, Sextet, Joined, First, Second, Third, Fourth, DataLength;
    IndicesAreSextets(s[3 * q], At(s, 3 * q + 1), 0);
    Positions(q);
    Lengths(|s|, q);
  }

  method Base64Encode(input: array<Octet>) returns (output: array<Octet>)
    ensures fresh(output) && output[..] == Encoded(input[..])
  {
    hide CharAt, Symbol;
    var n := input.Length;
    output := new Octet[(n + 2) / 3 * 4];
    var o, i, full := 0, 0, n / 3 * 3;
    ghost var s, q := input[..], 0;
    while i < full
      invariant i == 3 * q && o == 4 * q && q <= n / 3
      invariant forall j :: 0 <= j < o ==> output[j] == CharAt(s, j)
    {
      FullQuantum(s, q);
      output[o] := Symbol(input[i] >> 2);
      output[o + 1] := Symbol(((input[i] << 4) | (input[i + 1] >> 4)) & 63);
      output[o + 2] := Symbol(((input[i + 1] << 2) | (input[i + 2] >> 6)) & 63);
      output[o + 3] := Symbol(input[i + 2] & 63);
      o, i, q := o + 4, i + 3, q + 1;
    }
    if full < n {
      EncodeTail(input, output, full, o, q);
    }
  }

  /** The last branch of `Base64Encode`: one or two bytes are left over. */
  method EncodeTail(input: array<Octet>, output: array<Octet>, full: nat, o: nat, ghost q: nat)
    requires full == 3 * q && o == 4 * q && full < input.Length < full + 3 && output.Length == o + 4
    requires input != output
    modifies output
    ensures forall j :: 0 <= j < o ==> output[j] == old(output[j])
    ensures forall j :: o <= j < o + 4 ==> output[j] == CharAt(input[..], j)
  {
    hide CharAt, Symbol;
    ShortQuantum(input[..], q);
    output[o] := Symbol(input[full] >> 2);
    if full + 1 == input.Length {
      output[o + 1] := Symbol((input[full] << 4) & 63);
      output[o + 2] := PAD;
    } else {
      output[o + 1] := Symbol(((input[full] << 4) | (input[full + 1] >> 4)) & 63);
      output[o + 2] := Symbol((input[full + 1] << 2) & 63);
    }
    output[o + 3] := PAD;
  }
}
