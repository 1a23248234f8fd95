/** The Base64 decoder, and its inversion of the encoder even when the text is interleaved with
    characters outside the alphabet. */
module Base64Decode {
  import opened Base64

  datatype Reading = Data(v: Octet) | Pad | Skip

  /** `UnBase64`, its results -1 and -2 named. */
  function UnBase64(c: Octet): Reading {
    if 0x41 <= c <= 0x5A then Data(c - 0x41)
    else if 0x61 <= c <= 0x7A then Data(c - 0x61 + 26)
    else if 0x30 <= c <= 0x39 then Data(c - 0x30 + 52)
    else if c == 0x2B then Data(62)
    else if c == 0x2F then Data(63)
    else if c == 0x3D then Pad
    else Skip
  }

  /** The numbers read from `t`, up to the first padding character. */
  function Numbers(t: Octets): Octets {
    if t == [] then []
    else match UnBase64(t[0])
         case Data(v) => [v] + Numbers(t[1..])
         case Pad => []
         case Skip => Numbers(t[1..])
  }

  // ---- the bytes the numbers stand for ----

  function Quad(vs: Octets, q: nat): bv24 {
    JoinedQuad(At(vs, 4 * q), At(vs, 4 * q + 1), At(vs, 4 * q + 2), At(vs, 4 * q + 3))
  }

  function JoinedQuad(a: Octet, b: Octet, c: Octet, d: Octet): bv24 {
    ((a as bv24) << 18) | ((b as bv24) << 12) | ((c as bv24) << 6) | (d as bv24)
  }

  /** The k-th byte of a 24-bit group. */
  function ByteOf(g: bv24, k: nat): Octet
    requires k < 3
  {
    match k
    case 0 => (g >> 16) as Octet
    case 1 => ((g >> 8) & 0xFF) as Octet
    case _ => (g & 0xFF) as Octet
  }

  function ByteAt(vs: Octets, j: nat): Octet { ByteOf(Quad(vs, j / 3), j % 3) }

  /** The whole bytes among 6 |vs| bits. */
  function Decoded(vs: Octets): (r: Octets)
    ensures |r| == 6 * |vs| / 8
  {
    seq(6 * |vs| / 8, j requires 0 <= j < 6 * |vs| / 8 => ByteAt(vs, j))
  }

  // ---- the code ----

  ghost predicate SixBits(vs: Octets) { forall i :: 0 <= i < |vs| ==> vs[i] < 64 }

  function Or(x: Octet, y: Octet): Octet { x | y }

  lemma OrZero(x: Octet)
    ensures Or(x, 0) == x
  {
  }

  /** The bits the number in place `r` of a quad adds to the quad's k-th byte. */
  function Added(r: nat, v: Octet, k: nat): Octet {
    match r
    case 0 => if k == 0 then v << 2 else 0
    case 1 => if k == 0 then v >> 4 else if k == 1 then v << 4 else 0
    case 2 => if k == 1 then v >> 2 else if k == 2 then v << 6 else 0
    case _ => if k == 2 then v else 0
  }

  lemma GrowFirst(v: Octet, k: nat)
    requires v < 64 && k < 3
    ensures ByteOf(JoinedQuad(v, 0, 0, 0), k) == Or(ByteOf(JoinedQuad(0, 0, 0, 0), k), Added(0, v, k))
  {
  }

  lemma GrowSecond(a: Octet, v: Octet, k: nat)
    requires a < 64 && v < 64 && k < 3
    ensures ByteOf(JoinedQuad(a, v, 0, 0), k) == Or(ByteOf(JoinedQuad(a, 0, 0, 0), k), Added(1, v, k))
  {
  }

  lemma GrowThird(a: Octet, b: Octet, v: Octet, k: nat)
    requires a < 64 && b < 64 && v < 64 && k < 3
    ensures ByteOf(JoinedQuad(a, b, v, 0), k) == Or(ByteOf(JoinedQuad(a, b, 0, 0), k), Added(2, v, k))
  {
    match k {
      case 0 =>
      case 1 =>
      case _ =>
    }
  }

  lemma GrowFourth(a: Octet, b: Octet, c: Octet, v: Octet, k: nat)
    requires a < 64 && b < 64 && c < 64 && v < 64 && k < 3
    ensures ByteOf(JoinedQuad(a, b, c, v), k) == Or(ByteOf(JoinedQuad(a, b, c, 0), k), Added(3, v, k))
  {
    match k {
      case 0 =>
      case 1 =>
      case _ =>
    }
  }

  lemma AtSixBits(vs: Octets, i: nat)
    requires SixBits(vs)
    ensures At(vs, i) < 64
  {
  }

  lemma GrowQuad(vs: Octets, v: Octet, k: nat)
    requires SixBits(vs) && v < 64 && k < 3
    ensures var q, r := |vs| / 4, |vs| % 4;
            ByteOf(Quad(vs + [v], q), k) == Or(ByteOf(Quad(vs, q), k), Added(r, v, k))
  {
    hide JoinedQuad, ByteOf, Or, Added, SixBits;
    var q, r := |vs| / 4, |vs| % 4;
    var a, b, c := At(vs, 4 * q), At(vs, 4 * q + 1), At(vs, 4 * q + 2);
    AtSixBits(vs, 4 * q);
    AtSixBits(vs, 4 * q + 1);
    AtSixBits(vs, 4 * q + 2);
    match r
    case 0 => GrowFirst(v, k);
    case 1 => GrowSecond(a, v, k);
    case 2 => GrowThird(a, b, v, k);
    case _ => GrowFourth(a, b, c, v, k);
  }

  /** Reading one more number changes the bytes of its own quad only. */
  lemma NextNumber(vs: Octets, v: Octet, j: nat)
    requires SixBits(vs) && v < 64
    ensures ByteAt(vs + [v], j) ==
            if j / 3 == |vs| / 4 then Or(ByteAt(vs, j), Added(|vs| % 4, v, j % 3)) else ByteAt(vs, j)
  {
    hide JoinedQuad, ByteOf, Or, Added, SixBits;
    if j / 3 == |vs| / 4 {
      GrowQuad(vs, v, j % 3);
    } else {
      var q := j / 3;
      assert Quad(vs + [v], q) == Quad(vs, q);
    }
  }

  /** What the switch ORs into the byte under the cursor and into the next one. */
  function Here(place: nat, v: Octet): Octet {
    match place
    case 0 => v << 2
    case 6 => v >> 4
    case 4 => v >> 2
    case _ => v
  }

  function There(place: nat, v: Octet): Octet {
    match place
    case 6 => v << 4
    case 4 => v << 6
    case _ => 0
  }

  lemma Places(v: Octet)
    ensures Added(0, v, 0) == Here(0, v) && Added(0, v, 1) == There(0, v) == 0 && Added(0, v, 2) == 0
    ensures Added(1, v, 0) == Here(6, v) && Added(1, v, 1) == There(6, v) && Added(1, v, 2) == 0
    ensures Added(2, v, 0) == 0 && Added(2, v, 1) == Here(4, v) && Added(2, v, 2) == There(4, v)
    ensures Added(3, v, 0) == 0 && Added(3, v, 1) == 0 && Added(3, v, 2) == Here(2, v) && There(2, v) == 0
  {
  }

  /** Where the bit cursor stands after `n` numbers: in which byte, and in which of the four places. */
  lemma Cursor(n: nat)
    ensures n % 4 == 0 ==> 6 * n % 8 == 0 && 6 * n / 8 == 3 * (n / 4)
    ensures n % 4 == 1 ==> 6 * n % 8 == 6 && 6 * n / 8 == 3 * (n / 4)
    ensures n % 4 == 2 ==> 6 * n % 8 == 4 && 6 * n / 8 == 3 * (n / 4) + 1
    ensures n % 4 == 3 ==> 6 * n % 8 == 2 && 6 * n / 8 == 3 * (n / 4) + 2
  {
  }

  lemma NextByte(vs: Octets, v: Octet, o: nat, j: nat)
    requires SixBits(vs) && v < 64 && o == 6 * |vs|
    ensures ByteAt(vs + [v], j) ==
            if j == o / 8 then Or(ByteAt(vs, j), Here(o % 8, v))
            else if j == o / 8 + 1 then Or(ByteAt(vs, j), There(o % 8, v))
            else ByteAt(vs, j)
  {
    hide ByteAt, SixBits, Or, Added, Here, There;
    NextNumber(vs, v, j);
    Cursor(|vs|);
    Places(v);
    OrZero(ByteAt(vs, j));
    var q, k := j / 3, j % 3;
    assert j == 3 * q + k;
  }

  lemma NoNumbers(j: nat)
    ensures ByteAt([], j) == 0
  {
    assert ByteOf(JoinedQuad(0, 0, 0, 0), 0) == 0 && ByteOf(JoinedQuad(0, 0, 0, 0), 1) == 0;
    assert ByteOf(JoinedQuad(0, 0, 0, 0), 2) == 0;
  }

  lemma NumbersAreSixBits(c: Octet)
    ensures UnBase64(c).Data? ==> UnBase64(c).v < 64
  {
  }

  /** The buffer is `len * 4 / 3 + 5` bytes, and the cursor never leaves it. */
  method Decode(t: Octets) returns (r: Octets)
    ensures r == Decoded(Numbers(t))
  {
    hide ByteAt, UnBase64;
    var len := |t|;
    var res := new Octet[len * 4 / 3 + 5](_ => 0);
    var o, i := 0, 0;
    ghost var vs: Octets := [];
    forall j: nat ensures ByteAt([], j) == 0 { NoNumbers(j); }
    assert t[0..] == t;
    while i < len
      invariant 0 <= i <= len && |vs| <= i && o == 6 * |vs| && SixBits(vs)
      invariant vs + Numbers(t[i..]) == Numbers(t)
      invariant forall j :: 0 <= j < res.Length ==> res[j] == ByteAt(vs, j)
    {
      var c := UnBase64(t[i]);
      NumbersAreSixBits(t[i]);
      assert t[i..][1..] == t[i + 1..];
      match c {
      case Data(v) =>
        PutNumber(res, o, v, vs);
        assert (vs + [v]) + Numbers(t[i + 1..]) == vs + ([v] + Numbers(t[i + 1..]));
        vs := vs + [v];
        o := o + 6;
      case Pad =>
        r := res[..o / 8];
        assert vs + [] == vs;
        return;
      case Skip =>
      }
      i := i + 1;
    }
    assert vs + [] == vs;
    r := res[..o / 8];
  }

  /** The decoder's switch. */
  method PutNumber(res: array<Octet>, o: nat, v: Octet, ghost vs: Octets)
    requires SixBits(vs) && v < 64 && o == 6 * |vs| && o / 8 + 1 < res.Length
    requires forall j :: 0 <= j < res.Length ==> res[j] == ByteAt(vs, j)
    modifies res
    ensures forall j :: 0 <= j < res.Length ==> res[j] == ByteAt(vs + [v], j)
  {
    Cursor(|vs|);
    forall j: nat
      ensures ByteAt(vs + [v], j) ==
              if j == o / 8 then Or(ByteAt(vs, j), Here(o % 8, v))
              else if j == o / 8 + 1 then Or(ByteAt(vs, j), There(o % 8, v))
              else ByteAt(vs, j)
    {
      NextByte(vs, v, o, j);
    }
    OrZero(ByteAt(vs, o / 8 + 1));
    hide ByteAt, SixBits, Or;
    match o % 8
    case 0 => res[o / 8] := Or(res[o / 8], v << 2);
    case 6 => res[o / 8] := Or(res[o / 8], v >> 4); res[o / 8 + 1] := Or(res[o / 8 + 1], v << 4);
    case 4 => res[o / 8] := Or(res[o / 8], v >> 2); res[o / 8 + 1] := Or(res[o / 8 + 1], v << 6);
    case 2 => res[o / 8] := Or(res[o / 8], v);
    case _ => assert false;
  }
}
