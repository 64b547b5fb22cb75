/**
 The two hand-written base64url decoders (crates/gcp-attestation/src/jwt.rs and
 crates/synddb-bootstrap/src/proof_client.rs) against the encoding of section 5 of RFC 4648.
 Strings are their UTF-8 bytes: the characters treated specially are all single bytes.
 */
module Base64 {
  import opened Words

  type Sextet = n: nat | n < 64

  datatype Decoded = Ok(bytes: seq<Byte>) | BadLength | BadCharacter

  const PLUS: Byte := 43
  const MINUS: Byte := 45
  const SLASH: Byte := 47
  const EQUALS: Byte := 61
  const UNDERSCORE: Byte := 95

  // ---------------------------------------------------------------- the encoding

  /** Table 2 of RFC 4648. */
  function UrlChar(v: Sextet): (c: Byte) {
    if v < 26 then 65 + v
    else if v < 52 then 97 + (v - 26)
    else if v < 62 then 48 + (v - 52)
    else if v == 62 then MINUS
    else UNDERSCORE
  }

  /** Three bytes as four characters. */
  function Group(x: Byte, y: Byte, z: Byte): (chars: seq<Byte>)
    ensures |chars| == 4
  {
    [UrlChar(x / 4), UrlChar(x % 4 * 16 + y / 16), UrlChar(y % 16 * 4 + z / 64), UrlChar(z % 64)]
  }

  /** Unpadded base64url: a last group of one or two bytes is filled up with zero bits. */
  function Encode(bytes: seq<Byte>): (s: seq<Byte>) {
    if |bytes| == 0 then []
    else if |bytes| == 1 then Group(bytes[0], 0, 0)[..2]
    else if |bytes| == 2 then Group(bytes[0], bytes[1], 0)[..3]
    else Group(bytes[0], bytes[1], bytes[2]) + Encode(bytes[3..])
  }

  // ---------------------------------------------------------------- the decoders' table and quads

  function Foreign(n: nat): (entries: seq<int>)
    ensures |entries| == n && forall i :: 0 <= i < n ==> entries[i] == -1
  {
    seq(n, i => -1)
  }

  function Ascending(n: nat, first: int): (entries: seq<int>)
    ensures |entries| == n && forall i :: 0 <= i < n ==> entries[i] == first + i
  {
    seq(n, i => first + i)
  }

  /** The decoders' 128-entry table: -2 for the padding character, -1 for all other foreign ones. */
  const DECODE_TABLE: seq<int> :=
    Foreign(43) + [62] + Foreign(3) + [63] + Ascending(10, 52) + [-1, -1, -1, -2, -1, -1, -1]
    + Ascending(26, 0) + Foreign(6) + Ascending(26, 26) + Foreign(5)

  /** What the table, and the test for 128 in front of it, amount to. */
  function Lookup(c: Byte): (v: int)
    ensures v < 64
    ensures c == EQUALS ==> v < 0
  {
    if c == PLUS then 62
    else if c == SLASH then 63
    else if 48 <= c < 58 then 52 + (c - 48)
    else if 65 <= c < 91 then c - 65
    else if 97 <= c < 123 then 26 + (c - 97)
    else if c == EQUALS then -2
    else -1
  }

  method TableLookup(c: Byte) returns (v: int)
    ensures v == Lookup(c)
  {
    v := if c < 128 then DECODE_TABLE[c] else -1;
  }

  /** The byte each of the three shift-and-or expressions yields; their halves never overlap. */
  function First(va: Sextet, vb: Sextet): Byte { va * 4 % 256 + vb / 16 }
  function Second(vb: Sextet, vc: Sextet): Byte { vb * 16 % 256 + vc / 4 }
  function Third(vc: Sextet, vd: Sextet): Byte { vc * 64 % 256 + vd }

  /** One group of four characters; an error if one of them is foreign where it matters. */
  function Quad(a: Byte, b: Byte, c: Byte, d: Byte): (bytes: Decoded)
    ensures !bytes.BadLength? && (bytes.Ok? ==> 1 <= |bytes.bytes| <= 3)
  {
    var va, vb, vc, vd := Lookup(a), Lookup(b), Lookup(c), Lookup(d);
    if va < 0 || vb < 0 then BadCharacter
    else if c == EQUALS then Ok([First(va, vb)])
    else if vc < 0 then BadCharacter
    else if d == EQUALS then Ok([First(va, vb), Second(vb, vc)])
    else if vd < 0 then BadCharacter
    else Ok([First(va, vb), Second(vb, vc), Third(vc, vd)])
  }

  function Append(head: Decoded, last: Decoded): Decoded {
    if !head.Ok? then head else if !last.Ok? then last else Ok(head.bytes + last.bytes)
  }

  function Quads(s: seq<Byte>): (r: Decoded)
    requires |s| % 4 == 0
    ensures !r.BadLength?
  {
    if s == [] then Ok([])
    else
      Append(Quad(s[0], s[1], s[2], s[3]), Quads(s[4..]))
  }

  function DecodeStandard(s: seq<Byte>): Decoded {
    if |s| % 4 != 0 then BadLength else Quads(s)
  }

  function ToStandardChar(c: Byte): Byte {
    if c == MINUS then PLUS else if c == UNDERSCORE then SLASH else c
  }

  function ToStandard(s: seq<Byte>): (t: seq<Byte>)
    ensures |t| == |s| && forall i :: 0 <= i < |s| ==> t[i] == ToStandardChar(s[i])
  {
    seq(|s|, i requires 0 <= i < |s| => ToStandardChar(s[i]))
  }

  function Pad(s: seq<Byte>): seq<Byte> {
    if |s| % 4 == 2 then s + [EQUALS, EQUALS] else if |s| % 4 == 3 then s + [EQUALS] else s
  }

  function DecodeUrl(s: seq<Byte>): Decoded {
    DecodeStandard(Pad(ToStandard(s)))
  }

  // ---------------------------------------------------------------- the two implementations

  lemma AppendNothing(d: Decoded)
    ensures Append(d, Ok([])) == Append(Ok([]), d)
  {
    if d.Ok? {
      assert d.bytes + [] == [] + d.bytes;
    }
  }

  lemma AppendAssociative(a: Decoded, b: Decoded, c: Decoded)
    ensures Append(a, Append(b, c)) == Append(Append(a, b), c)
  {
    if a.Ok? && b.Ok? && c.Ok? {
      assert a.bytes + (b.bytes + c.bytes) == a.bytes + b.bytes + c.bytes;
    }
  }

  lemma {:induction false} QuadsSplit(s: seq<Byte>, i: nat)
    requires |s| % 4 == 0 && i % 4 == 0 && i < |s|
    ensures Quads(s[..i + 4]) == Append(Quads(s[..i]), Quad(s[i], s[i + 1], s[i + 2], s[i + 3]))
    decreases i
  {
    hide Quad, Append;
    var t := s[..i + 4];
    assert t[4..] == s[4..i + 4];
    var first := Quad(s[0], s[1], s[2], s[3]);
    if i == 0 {
      assert t[4..] == [];
      assert s[..0] == [];
      AppendNothing(first);
    } else {
      QuadsSplit(s[4..], i - 4);
      AppendAssociative(first, Quads(s[4..][..i - 4]), Quad(s[i], s[i + 1], s[i + 2], s[i + 3]));
      assert s[4..][..i] == t[4..];
      assert s[4..][..i - 4] == s[..i][4..];
    }
  }

  lemma {:induction false} QuadsFail(s: seq<Byte>, i: nat)
    requires |s| % 4 == 0 && i % 4 == 0 && i <= |s| && Quads(s[..i]).BadCharacter?
    ensures Quads(s) == BadCharacter
    decreases i
  {
    hide Quad;
    if i > 0 {
      assert s[..i][4..] == s[4..][..i - 4];
      if Quad(s[0], s[1], s[2], s[3]).Ok? {
        QuadsFail(s[4..], i - 4);
      }
    }
  }

  /** The loop body of `decode_base64_standard`: all four values are looked up before any test. */
  method PushGroup(output: seq<Byte>, a: Byte, b: Byte, c: Byte, d: Byte) returns (r: Decoded)
    ensures r == Append(Ok(output), Quad(a, b, c, d))
  {
    var va := TableLookup(a);
    var vb := TableLookup(b);
    var vc := TableLookup(c);
    var vd := TableLookup(d);
    if va < 0 || vb < 0 {
      return BadCharacter;
    }
    var pushed := output + [First(va, vb)];
    if c != EQUALS {
      if vc < 0 {
        return BadCharacter;
      }
      pushed := pushed + [Second(vb, vc)];
      if d != EQUALS {
        if vd < 0 {
          return BadCharacter;
        }
        pushed := pushed + [Third(vc, vd)];
      }
    }
    r := Ok(pushed);
  }

  /** The loop body of `base64_decode`: the last two values are looked up only where needed. */
  method PushGroupLazily(output: seq<Byte>, a: Byte, b: Byte, c: Byte, d: Byte) returns (r: Decoded)
    ensures r == Append(Ok(output), Quad(a, b, c, d))
  {
    var va := TableLookup(a);
    var vb := TableLookup(b);
    if va < 0 || vb < 0 {
      return BadCharacter;
    }
    var pushed := output + [First(va, vb)];
    if c != EQUALS {
      var vc := TableLookup(c);
      if vc < 0 {
        return BadCharacter;
      }
      pushed := pushed + [Second(vb, vc)];
      if d != EQUALS {
        var vd := TableLookup(d);
        if vd < 0 {
          return BadCharacter;
        }
        pushed := pushed + [Third(vc, vd)];
      }
    }
    r := Ok(pushed);
  }

  /** `decode_base64_standard`. */
  method DecodeBase64Standard(input: seq<Byte>) returns (r: Decoded)
    ensures r == DecodeStandard(input)
  {
    hide Quad;
    if |input| % 4 != 0 {
      return BadLength;
    }
    r := Ok([]);
    var i := 0;
    while i < |input|
      invariant 0 <= i <= |input| && i % 4 == 0
      invariant r.Ok? && Quads(input[..i]) == r
    {
      QuadsSplit(input, i);
      r := PushGroup(r.bytes, input[i], input[i + 1], input[i + 2], input[i + 3]);
      if !r.Ok? {
        QuadsFail(input, i + 4);
        return;
      }
      i := i + 4;
    }
    assert input[..|input|] == input;
  }

  /** `base64_decode`. */
  method Base64Decode(input: seq<Byte>) returns (r: Decoded)
    ensures r == DecodeStandard(input)
  {
    hide Quad;
    if |input| % 4 != 0 {
      return BadLength;
    }
    r := Ok([]);
    var i := 0;
    while i < |input|
      invariant 0 <= i <= |input| && i % 4 == 0
      invariant r.Ok? && Quads(input[..i]) == r
    {
      QuadsSplit(input, i);
      r := PushGroupLazily(r.bytes, input[i], input[i + 1], input[i + 2], input[i + 3]);
      if !r.Ok? {
        QuadsFail(input, i + 4);
        return;
      }
      i := i + 4;
    }
    assert input[..|input|] == input;
  }

  /** The common first half of both decoders: translate and pad. */
  method Prepare(input: seq<Byte>) returns (standard: seq<Byte>)
    ensures standard == Pad(ToStandard(input))
  {
    standard := [];
    for i := 0 to |input|
      invariant standard == ToStandard(input)[..i]
    {
      standard := standard + [ToStandardChar(input[i])];
    }
    match |standard| % 4 {
      case 2 => standard := standard + [EQUALS] + [EQUALS];
      case 3 => standard := standard + [EQUALS];
      case _ =>
    }
  }

  /** On every input the two decoders give the same bytes or fail in the same way. */
  method DecodeBoth(input: seq<Byte>) returns (attestation: Decoded, bootstrap: Decoded)
    ensures attestation == bootstrap == DecodeUrl(input)
  {
    var standard := Prepare(input);
    attestation := DecodeBase64Standard(standard);
    standard := Prepare(input);
    bootstrap := Base64Decode(standard);
  }

  // ---------------------------------------------------------------- one group

  /** One group of base64url characters. */
  function UrlQuad(a: Byte, b: Byte, c: Byte, d: Byte): Decoded {
    Quad(ToStandardChar(a), ToStandardChar(b), ToStandardChar(c), ToStandardChar(d))
  }

  lemma CharRoundTrip(v: Sextet)
    ensures Lookup(ToStandardChar(UrlChar(v))) == v
    ensures ToStandardChar(UrlChar(v)) != EQUALS
  {
  }

  lemma FirstParts(va: Sextet, vb: Sextet)
    ensures First(va, vb) / 4 == va && First(va, vb) % 4 == vb / 16
  {
    assert va * 4 % 256 == va * 4;
  }

  lemma SecondParts(vb: Sextet, vc: Sextet)
    ensures Second(vb, vc) / 16 == vb % 16 && Second(vb, vc) % 16 == vc / 4
  {
    assert vb * 16 == vb / 16 * 256 + vb % 16 * 16;
    assert vb * 16 % 256 == vb % 16 * 16;
  }

  lemma ThirdParts(vc: Sextet, vd: Sextet)
    ensures Third(vc, vd) / 64 == vc % 4 && Third(vc, vd) % 64 == vd
  {
    assert vc * 64 == vc / 4 * 256 + vc % 4 * 64;
    assert vc * 64 % 256 == vc % 4 * 64;
  }

  lemma Halves(p: nat, x: Byte, y: Byte)
    requires p > 0 && x / p == y / p && x % p == y % p
    ensures x == y
  {
    assert x == x / p * p + x % p && y == y / p * p + y % p;
  }

  lemma SextetsOf(x: Byte, y: Byte, z: Byte)
    ensures First(x / 4, x % 4 * 16 + y / 16) == x
    ensures Second(x % 4 * 16 + y / 16, y % 16 * 4 + z / 64) == y
    ensures Third(y % 16 * 4 + z / 64, z % 64) == z
  {
    hide First, Second, Third;
    var vb: Sextet, vc: Sextet := x % 4 * 16 + y / 16, y % 16 * 4 + z / 64;
    FirstParts(x / 4, vb);
    SecondParts(vb, vc);
    ThirdParts(vc, z % 64);
    Halves(4, First(x / 4, vb), x);
    Halves(16, Second(vb, vc), y);
    Halves(64, Third(vc, z % 64), z);
  }

  lemma GroupDecodes(x: Byte, y: Byte, z: Byte)
    ensures var g := Group(x, y, z);
            && UrlQuad(g[0], g[1], g[2], g[3]) == Ok([x, y, z])
            && Quad(ToStandardChar(g[0]), ToStandardChar(g[1]), ToStandardChar(g[2]), EQUALS)
               == Ok([x, y])
            && Quad(ToStandardChar(g[0]), ToStandardChar(g[1]), EQUALS, EQUALS) == Ok([x])
  {
    hide First, Second, Third, UrlChar, ToStandardChar, Lookup;
    var va: Sextet, vb: Sextet, vc: Sextet, vd: Sextet := x / 4, x % 4 * 16 + y / 16, y % 16 * 4 + z / 64, z % 64;
    CharRoundTrip(va);
    CharRoundTrip(vb);
    CharRoundTrip(vc);
    CharRoundTrip(vd);
    SextetsOf(x, y, z);
  }

  // ---------------------------------------------------------------- round trips

  lemma PadTail(q: seq<Byte>, s: seq<Byte>)
    requires |q| == 4
    ensures Pad(ToStandard(q + s)) == ToStandard(q) + Pad(ToStandard(s))
  {
    hide ToStandardChar;
    assert ToStandard(q + s) == ToStandard(q) + ToStandard(s);
  }

  /** A full group in front of an input is decoded on its own. */
  lemma DecodeFullGroup(q: seq<Byte>, s: seq<Byte>)
    requires |q| == 4
    ensures DecodeUrl(q + s)
         == if DecodeUrl(s).BadLength? then BadLength
            else Append(UrlQuad(q[0], q[1], q[2], q[3]), DecodeUrl(s))
  {
    hide Quad, ToStandardChar, Pad;
    PadTail(q, s);
    var t := Pad(ToStandard(q + s));
    assert t[4..] == Pad(ToStandard(s)) && t[..4] == ToStandard(q);
    assert t[0] == t[..4][0] && t[1] == t[..4][1] && t[2] == t[..4][2] && t[3] == t[..4][3];
  }

  /** Decoding the unpadded encoding of any byte string gives the byte string back. */
  lemma {:induction false} RoundTrip(bytes: seq<Byte>)
    ensures DecodeUrl(Encode(bytes)) == Ok(bytes)
  {
    hide Quad, UrlQuad, Group, ToStandardChar;
    if |bytes| == 0 {
      assert Pad(ToStandard([])) == [];
    } else if |bytes| < 3 {
      ShortRoundTrip(bytes);
    } else {
      var group := Group(bytes[0], bytes[1], bytes[2]);
      RoundTrip(bytes[3..]);
      DecodeFullGroup(group, Encode(bytes[3..]));
      GroupDecodes(bytes[0], bytes[1], bytes[2]);
      assert bytes == bytes[..3] + bytes[3..] && bytes[..3] == [bytes[0], bytes[1], bytes[2]];
    }
  }

  /** Two or three characters are padded to one group. */
  lemma DecodeShort(s: seq<Byte>)
    requires 2 <= |s| <= 3
    ensures DecodeUrl(s) == Quad(ToStandardChar(s[0]), ToStandardChar(s[1]),
                                 if |s| == 3 then ToStandardChar(s[2]) else EQUALS, EQUALS)
  {
    hide Quad, ToStandardChar;
    var t := Pad(ToStandard(s));
    assert |t| == 4 && t[4..] == [];
    var q := Quad(t[0], t[1], t[2], t[3]);
    assert q.Ok? ==> q.bytes + [] == q.bytes;
    assert Quads(t) == Append(q, Quads([]));
    assert t[0] == ToStandard(s)[0] && t[1] == ToStandard(s)[1];
    assert t[2] == (if |s| == 3 then ToStandard(s)[2] else EQUALS) && t[3] == EQUALS;
  }

  lemma ShortRoundTrip(bytes: seq<Byte>)
    requires 1 <= |bytes| <= 2
    ensures DecodeUrl(Encode(bytes)) == Ok(bytes)
  {
    hide Quad, Group, ToStandardChar, DecodeUrl;
    GroupDecodes(bytes[0], if |bytes| == 2 then bytes[1] else 0, 0);
    DecodeShort(Encode(bytes));
    assert |bytes| == 1 ==> bytes == [bytes[0]];
    assert |bytes| == 2 ==> bytes == [bytes[0], bytes[1]];
  }

  // ---------------------------------------------------------------- which inputs are encodings

  predicate InAlphabet(c: Byte) {
    c != PLUS && c != SLASH && Lookup(ToStandardChar(c)) >= 0
  }

  function ValueOf(c: Byte): Sextet
    requires InAlphabet(c)
  {
    Lookup(ToStandardChar(c))
  }

  /** Only alphabet characters, a possible length, and no bits set beyond the last byte. */
  predicate Canonical(s: seq<Byte>) {
    && (forall i :: 0 <= i < |s| ==> InAlphabet(s[i]))
    && |s| % 4 != 1
    && (|s| % 4 == 2 ==> ValueOf(s[|s| - 1]) % 16 == 0)
    && (|s| % 4 == 3 ==> ValueOf(s[|s| - 1]) % 4 == 0)
  }

  lemma CharOf(c: Byte)
    requires InAlphabet(c)
    ensures UrlChar(ValueOf(c)) == c && ToStandardChar(c) != EQUALS
  {
  }

  lemma CharInAlphabet(v: Sextet)
    ensures InAlphabet(UrlChar(v)) && ValueOf(UrlChar(v)) == v
  {
  }

  lemma GroupInAlphabet(x: Byte, y: Byte, z: Byte)
    ensures var g := Group(x, y, z);
            && (forall i :: 0 <= i < 4 ==> InAlphabet(g[i]))
            && (y == 0 ==> ValueOf(g[1]) % 16 == 0)
            && (z == 0 ==> ValueOf(g[2]) % 4 == 0)
  {
    hide UrlChar, InAlphabet, ValueOf;
    CharInAlphabet(x / 4);
    CharInAlphabet(x % 4 * 16 + y / 16);
    CharInAlphabet(y % 16 * 4 + z / 64);
    CharInAlphabet(z % 64);
  }

  lemma {:induction false} EncodeCanonical(bytes: seq<Byte>)
    ensures Canonical(Encode(bytes))
  {
    hide Group, InAlphabet, ValueOf;
    if |bytes| > 0 {
      var y: Byte := if |bytes| > 1 then bytes[1] else 0;
      var z: Byte := if |bytes| > 2 then bytes[2] else 0;
      GroupInAlphabet(bytes[0], y, z);
      if |bytes| >= 3 {
        EncodeCanonical(bytes[3..]);
        CanonicalConcat(Group(bytes[0], y, z), Encode(bytes[3..]));
      }
    }
  }

  lemma CanonicalConcat(q: seq<Byte>, s: seq<Byte>)
    requires |q| == 4 && forall i :: 0 <= i < 4 ==> InAlphabet(q[i])
    ensures Canonical(q + s) <==> Canonical(s)
  {
    hide InAlphabet, ValueOf;
    assert forall i :: 0 <= i < |s| ==> (q + s)[i + 4] == s[i];
    if s != [] {
      assert (q + s)[|q + s| - 1] == s[|s| - 1];
    }
  }

  /** A group of alphabet characters, cut to two, three or four of them, comes from its bytes. */
  lemma GroupOf(a: Byte, b: Byte, c: Byte, d: Byte)
    requires InAlphabet(a) && InAlphabet(b) && InAlphabet(c) && InAlphabet(d)
    ensures var va, vb, vc, vd := ValueOf(a), ValueOf(b), ValueOf(c), ValueOf(d);
            var x, y, z := First(va, vb), Second(vb, vc), Third(vc, vd);
            && UrlQuad(a, b, c, d) == Ok([x, y, z]) && Group(x, y, z) == [a, b, c, d]
            && Quad(ToStandardChar(a), ToStandardChar(b), ToStandardChar(c), EQUALS) == Ok([x, y])
            && (vc % 4 == 0 ==> Group(x, y, 0)[..3] == [a, b, c])
            && Quad(ToStandardChar(a), ToStandardChar(b), EQUALS, EQUALS) == Ok([x])
            && (vb % 16 == 0 ==> Group(x, 0, 0)[..2] == [a, b])
  {
    hide First, Second, Third, UrlChar, ToStandardChar, Lookup;
    var va, vb, vc, vd := ValueOf(a), ValueOf(b), ValueOf(c), ValueOf(d);
    CharOf(a);
    CharOf(b);
    CharOf(c);
    CharOf(d);
    FirstParts(va, vb);
    SecondParts(vb, vc);
    ThirdParts(vc, vd);
    var x, y, z := First(va, vb), Second(vb, vc), Third(vc, vd);
    assert x / 4 == va && x % 4 * 16 + y / 16 == vb && y % 16 * 4 + z / 64 == vc && z % 64 == vd;
    assert vc % 4 == 0 ==> y % 16 * 4 == vc;
    assert vb % 16 == 0 ==> x % 4 * 16 == vb;
  }

  lemma {:induction false} CanonicalIsEncoding(s: seq<Byte>)
    requires Canonical(s)
    ensures DecodeUrl(s).Ok? && Encode(DecodeUrl(s).bytes) == s
  {
    hide Quad, UrlQuad, Group, First, Second, Third, InAlphabet, ValueOf, ToStandardChar;
    if |s| >= 4 {
      var q, tail := s[..4], s[4..];
      assert s == q + tail && q == [s[0], s[1], s[2], s[3]];
      CanonicalConcat(q, tail);
      CanonicalIsEncoding(tail);
      DecodeFullGroup(q, tail);
      GroupOf(s[0], s[1], s[2], s[3]);
      var group := UrlQuad(s[0], s[1], s[2], s[3]).bytes;
      assert (group + DecodeUrl(tail).bytes)[3..] == DecodeUrl(tail).bytes;
    } else if s == [] {
      assert Pad(ToStandard([])) == [];
    } else {
      ShortCanonical(s);
    }
  }

  lemma ShortCanonical(s: seq<Byte>)
    requires Canonical(s) && 2 <= |s| <= 3
    ensures DecodeUrl(s).Ok? && Encode(DecodeUrl(s).bytes) == s
  {
    hide Quad, UrlQuad, Group, First, Second, Third, InAlphabet, ValueOf, ToStandardChar, DecodeUrl;
    DecodeShort(s);
    GroupOf(s[0], s[1], if |s| == 3 then s[2] else s[1], s[0]);
    assert |s| == 2 ==> s == [s[0], s[1]];
    assert |s| == 3 ==> s == [s[0], s[1], s[2]];
  }

  /**
   The decoders accept more than encodings.  Exactly the canonical strings are what re-encoding their
   decoded bytes gives back, so on those, and only on those, decoding loses nothing.
   */
  lemma CanonicalExact(s: seq<Byte>)
    ensures Canonical(s) <==> DecodeUrl(s).Ok? && Encode(DecodeUrl(s).bytes) == s
  {
    hide Quad, Group, InAlphabet, ValueOf;
    if Canonical(s) {
      CanonicalIsEncoding(s);
    }
    if DecodeUrl(s).Ok? && Encode(DecodeUrl(s).bytes) == s {
      EncodeCanonical(DecodeUrl(s).bytes);
    }
  }

  /** "QQ" and "QR" both decode to the single byte "A". */
  lemma SpareBitsIgnored()
    ensures DecodeUrl([81, 81]) == DecodeUrl([81, 82]) == Ok([65])
    ensures !Canonical([81, 82])
  {
    assert Pad(ToStandard([81, 81])) == [81, 81, EQUALS, EQUALS];
    assert Pad(ToStandard([81, 82])) == [81, 82, EQUALS, EQUALS];
    assert [81, 81, EQUALS, EQUALS][4..] == [] && [81, 82, EQUALS, EQUALS][4..] == [];
  }

  // ---------------------------------------------------------------- which inputs decode

  /** The characters of either alphabet. */
  predicate Digit64(c: Byte) {
    65 <= c < 91 || 97 <= c < 123 || 48 <= c < 58 || c in {PLUS, SLASH, MINUS, UNDERSCORE}
  }

  predicate Standard64(c: Byte) {
    65 <= c < 91 || 97 <= c < 123 || 48 <= c < 58 || c in {PLUS, SLASH}
  }

  lemma DigitLookup(c: Byte)
    ensures Lookup(c) >= 0 <==> Standard64(c)
    ensures Standard64(ToStandardChar(c)) <==> Digit64(c)
    ensures c != EQUALS ==> ToStandardChar(c) != EQUALS
  {
  }

  /** Two digits, then a padding character or a digit, then, after a digit, again either. */
  predicate GroupFits(a: Byte, b: Byte, c: Byte, d: Byte) {
    && Standard64(a) && Standard64(b)
    && (c == EQUALS || (Standard64(c) && (d == EQUALS || Standard64(d))))
  }

  /** One group decodes exactly when it fits, to one byte less than it has digits before the padding. */
  lemma QuadExact(a: Byte, b: Byte, c: Byte, d: Byte)
    ensures Quad(a, b, c, d).Ok? <==> GroupFits(a, b, c, d)
    ensures Quad(a, b, c, d).Ok? ==>
              |Quad(a, b, c, d).bytes| == if c == EQUALS then 1 else if d == EQUALS then 2 else 3
  {
    DigitLookup(a);
    DigitLookup(b);
    DigitLookup(c);
    DigitLookup(d);
    hide Lookup, First, Second, Third;
  }

  predicate GroupAt(s: seq<Byte>, i: nat)
    requires 4 * i + 3 < |s|
  {
    GroupFits(s[4 * i], s[4 * i + 1], s[4 * i + 2], s[4 * i + 3])
  }

  /** Padded input decodes exactly when every one of its groups fits, padding inside it included. */
  lemma {:induction false} GroupsExact(s: seq<Byte>)
    requires |s| % 4 == 0
    ensures Quads(s).Ok? <==> forall i: nat | 4 * i + 3 < |s| :: GroupAt(s, i)
  {
    if s != [] {
      hide Quad, GroupFits;
      QuadExact(s[0], s[1], s[2], s[3]);
      GroupsExact(s[4..]);
      assert GroupAt(s, 0) <==> Quad(s[0], s[1], s[2], s[3]).Ok?;
      assert forall i: nat | 4 * i + 3 < |s[4..]| :: GroupAt(s[4..], i) <==> GroupAt(s, i + 1);
      assert forall i: nat | 0 < i && 4 * i + 3 < |s| :: GroupAt(s, i) <==> GroupAt(s[4..], i - 1);
    }
  }

  /** Inputs of whole groups, laid end to end, decode to their bytes laid end to end. */
  lemma {:induction false} DecodeConcat(a: seq<Byte>, b: seq<Byte>)
    requires |a| % 4 == 0 && |b| % 4 == 0
    ensures Quads(a + b) == Append(Quads(a), Quads(b))
  {
    hide Quad;
    if a == [] {
      assert a + b == b;
    } else {
      assert (a + b)[4..] == a[4..] + b;
      DecodeConcat(a[4..], b);
      AppendAssociative(Quad(a[0], a[1], a[2], a[3]), Quads(a[4..]), Quads(b));
    }
  }

  lemma UrlQuadExact(a: Byte, b: Byte, c: Byte, d: Byte)
    requires c != EQUALS && d != EQUALS
    ensures UrlQuad(a, b, c, d).Ok? <==> Digit64(a) && Digit64(b) && Digit64(c) && Digit64(d)
    ensures !UrlQuad(a, b, c, d).BadLength?
  {
    QuadExact(ToStandardChar(a), ToStandardChar(b), ToStandardChar(c), ToStandardChar(d));
    DigitLookup(a);
    DigitLookup(b);
    DigitLookup(c);
    DigitLookup(d);
    hide Quad, ToStandardChar;
  }

  predicate AllDigits(s: seq<Byte>) {
    forall i :: 0 <= i < |s| ==> Digit64(s[i])
  }

  lemma AllDigitsConcat(q: seq<Byte>, s: seq<Byte>)
    requires |q| == 4
    ensures AllDigits(q + s) <==> Digit64(q[0]) && Digit64(q[1]) && Digit64(q[2]) && Digit64(q[3]) && AllDigits(s)
  {
    hide Digit64;
    assert forall i :: 0 <= i < |s| ==> (q + s)[i + 4] == s[i];
    assert forall i :: 0 <= i < 4 ==> (q + s)[i] == q[i];
  }

  lemma ShortExact(s: seq<Byte>)
    requires |s| < 4 && EQUALS !in s
    ensures DecodeUrl(s).BadLength? <==> |s| == 1
    ensures DecodeUrl(s).Ok? <==> |s| != 1 && AllDigits(s)
  {
    if |s| >= 2 {
      hide Quad, ToStandardChar, DecodeUrl, Digit64;
      DecodeShort(s);
      var third := if |s| == 3 then ToStandardChar(s[2]) else EQUALS;
      QuadExact(ToStandardChar(s[0]), ToStandardChar(s[1]), third, EQUALS);
      DigitLookup(s[0]);
      DigitLookup(s[1]);
      DigitLookup(s[|s| - 1]);
    }
  }

  /**
   Exactly the unpadded inputs that decode: those made of the characters of either alphabet, of any
   length but one more than a multiple of four, which is a length error whatever the characters.
   */
  lemma {:induction false} UnpaddedExact(s: seq<Byte>)
    requires EQUALS !in s
    ensures DecodeUrl(s).BadLength? <==> |s| % 4 == 1
    ensures DecodeUrl(s).Ok? <==> |s| % 4 != 1 && AllDigits(s)
  {
    hide UrlQuad, AllDigits, Digit64, DecodeUrl;
    if |s| >= 4 {
      var q, tail := s[..4], s[4..];
      assert s == q + tail;
      UnpaddedExact(tail);
      DecodeFullGroup(q, tail);
      assert q[2] in s && q[3] in s;
      UrlQuadExact(q[0], q[1], q[2], q[3]);
      AllDigitsConcat(q, tail);
    } else {
      ShortExact(s);
    }
  }

  /** Padding written out changes nothing. */
  lemma PaddingOptional(s: seq<Byte>)
    ensures DecodeUrl(Pad(s)) == DecodeUrl(s)
  {
    assert ToStandard(Pad(s)) == Pad(ToStandard(s));
    assert Pad(Pad(ToStandard(s))) == Pad(ToStandard(s));
  }

  /** The two alphabets are read alike. */
  lemma AlphabetsAlike(s: seq<Byte>)
    ensures DecodeUrl(ToStandard(s)) == DecodeUrl(s)
  {
    assert ToStandard(ToStandard(s)) == ToStandard(s);
  }

  predicate AllUrl(s: seq<Byte>) {
    forall i :: 0 <= i < |s| ==> InAlphabet(s[i])
  }

  /** The input with the bits of its last character that go beyond the last byte set to zero. */
  function ClearSpare(s: seq<Byte>): (r: seq<Byte>)
    requires AllUrl(s)
    ensures |r| == |s|
  {
    var n := |s| - 1;
    if |s| % 4 == 2 then s[n := UrlChar(ValueOf(s[n]) / 16 * 16)]
    else if |s| % 4 == 3 then s[n := UrlChar(ValueOf(s[n]) / 4 * 4)]
    else s
  }

  lemma ClearSpareShort(s: seq<Byte>)
    requires 2 <= |s| <= 3 && AllUrl(s)
    ensures Canonical(ClearSpare(s)) && DecodeUrl(ClearSpare(s)) == DecodeUrl(s)
  {
    var n, s' := |s| - 1, ClearSpare(s);
    var unit := if |s| == 2 then 16 else 4;
    var v: Sextet := ValueOf(s[n]) / unit * unit;
    assert s'[n] == UrlChar(v);
    CharInAlphabet(v);
    CharOf(s[n]);
    CharOf(s[0]);
    CharOf(s[1]);
    CharOf(UrlChar(v));
    assert v / unit == ValueOf(s[n]) / unit && v % unit == 0;
    DecodeShort(s);
    DecodeShort(s');
    hide DecodeUrl, ToStandardChar, UrlChar;
  }

  lemma ClearSpareConcat(q: seq<Byte>, s: seq<Byte>)
    requires |q| == 4 && AllUrl(q) && AllUrl(s)
    ensures AllUrl(q + s) && ClearSpare(q + s) == q + ClearSpare(s)
  {
    hide InAlphabet, ValueOf, UrlChar;
    if s != [] {
      assert (q + s)[|q + s| - 1] == s[|s| - 1];
    }
  }

  /**
   The bits beyond the last byte are ignored: clearing them gives the canonical form, which decodes to
   the same bytes.
   */
  lemma {:induction false} SpareBitsExact(s: seq<Byte>)
    requires |s| % 4 != 1 && AllUrl(s)
    ensures Canonical(ClearSpare(s)) && DecodeUrl(ClearSpare(s)) == DecodeUrl(s)
  {
    if |s| >= 4 {
      hide UrlQuad, InAlphabet, ClearSpare, DecodeUrl, Canonical;
      var q, tail := s[..4], s[4..];
      assert s == q + tail;
      SpareBitsExact(tail);
      ClearSpareConcat(q, tail);
      DecodeFullGroup(q, tail);
      DecodeFullGroup(q, ClearSpare(tail));
      CanonicalConcat(q, ClearSpare(tail));
    } else if |s| >= 2 {
      ClearSpareShort(s);
    }
  }
}
