/** `btoa`: base64 encoding (section 4 of RFC 4648, with '=' padding) of a
    string whose code units are all Latin-1 bytes, and the matching decoder,
    which the credential store's proofs use as the encoder's inverse. */
module Base64 {
  import opened Js

  type Sextet = v: int | 0 <= v < 64

  /** The base64 alphabet: A-Z, a-z, 0-9, '+', '/'. */
  function SextetChar(v: Sextet): char {
    if v < 26 then (65 + v) as char
    else if v < 52 then (97 + v - 26) as char
    else if v < 62 then (48 + v - 52) as char
    else if v == 62 then '+'
    else '/'
  }

  function CharSextet(c: char): Option<Sextet> {
    if 'A' <= c <= 'Z' then Some(c as int - 65)
    else if 'a' <= c <= 'z' then Some(c as int - 97 + 26)
    else if '0' <= c <= '9' then Some(c as int - 48 + 52)
    else if c == '+' then Some(62)
    else if c == '/' then Some(63)
    else None
  }

  predicate IsBase64Char(c: char) {
    c == '=' || CharSextet(c).Some?
  }

  /** Every three bytes become four characters; a final one or two bytes are
      padded with '=' to four. */
  function Encode(b: seq<Byte>): (s: string)
    ensures |s| == 4 * ((|b| + 2) / 3)
    ensures forall i :: 0 <= i < |s| ==> IsBase64Char(s[i])
    decreases |b|
  {
    if |b| == 0 then ""
    else if |b| == 1 then
      [SextetChar(b[0] / 4), SextetChar((b[0] % 4) * 16), '=', '=']
    else if |b| == 2 then
      [SextetChar(b[0] / 4), SextetChar((b[0] % 4) * 16 + b[1] / 16), SextetChar((b[1] % 16) * 4), '=']
    else
      Group(b[0], b[1], b[2]) + Encode(b[3..])
  }

  /** Four characters without padding back to the three bytes they carry. */
  function DecodeTriple(q0: char, q1: char, q2: char, q3: char): (r: Option<seq<Byte>>)
    ensures r.Some? ==> |r.value| == 3
  {
    var c0, c1, c2, c3 := CharSextet(q0), CharSextet(q1), CharSextet(q2), CharSextet(q3);
    if c0.None? || c1.None? || c2.None? || c3.None? then None
    else Some([c0.value * 4 + c1.value / 16, (c1.value % 16) * 16 + c2.value / 4, (c2.value % 4) * 64 + c3.value])
  }

  /** A final group ending in '=' back to the one or two bytes it carries. The
      bits it pads with must be zero (section 3.5 of RFC 4648). */
  function DecodePadded(q0: char, q1: char, q2: char): Option<seq<Byte>> {
    var c0, c1, c2 := CharSextet(q0), CharSextet(q1), CharSextet(q2);
    if c0.None? || c1.None? then None
    else if q2 == '=' then
      if c1.value % 16 != 0 then None
      else Some([c0.value * 4 + c1.value / 16])
    else if c2.None? || c2.value % 4 != 0 then None
    else Some([c0.value * 4 + c1.value / 16, (c1.value % 16) * 16 + c2.value / 4])
  }

  /** The inverse of `Encode`: four characters at a time back to bytes. Only a
      final group may carry '=', and its pad bits must be zero, so every byte
      string has exactly one text that decodes to it. */
  function Decode(s: string): Option<seq<Byte>>
    decreases |s|
  {
    if |s| == 0 then Some([])
    else if |s| < 4 then None
    else if |s| == 4 && s[3] == '=' then DecodePadded(s[0], s[1], s[2])
    else
      match DecodeTriple(s[0], s[1], s[2], s[3])
      case None => None
      case Some(g) =>
        match Decode(s[4..])
        case None => None
        case Some(rest) => Some(g + rest)
  }

  lemma SextetRoundTrip(v: Sextet)
    ensures CharSextet(SextetChar(v)) == Some(v)
    ensures SextetChar(v) != '='
  {
  }

  /** The alphabet read back: a character with a sextet is that sextet's. */
  lemma CharRoundTrip(c: char)
    requires CharSextet(c).Some?
    ensures SextetChar(CharSextet(c).value) == c
  {
  }

  /** The bit regrouping of one full group is undone by the decoder's. */
  lemma GroupArithmetic(b0: Byte, b1: Byte, b2: Byte)
    ensures (b0 / 4) * 4 + ((b0 % 4) * 16 + b1 / 16) / 16 == b0
    ensures (((b0 % 4) * 16 + b1 / 16) % 16) * 16 + ((b1 % 16) * 4 + b2 / 64) / 4 == b1
    ensures (((b1 % 16) * 4 + b2 / 64) % 4) * 64 + b2 % 64 == b2
  {
  }

  /** The decoder's bit regrouping is undone by the encoder's. */
  lemma SplitArithmetic(c0: Sextet, c1: Sextet, c2: Sextet, c3: Sextet)
    ensures (c0 * 4 + c1 / 16) / 4 == c0 && (c0 * 4 + c1 / 16) % 4 == c1 / 16
    ensures ((c1 % 16) * 16 + c2 / 4) / 16 == c1 % 16 && ((c1 % 16) * 16 + c2 / 4) % 16 == c2 / 4
    ensures ((c2 % 4) * 64 + c3) / 64 == c2 % 4 && ((c2 % 4) * 64 + c3) % 64 == c3
    ensures (c1 / 16) * 16 + c1 % 16 == c1 && (c2 / 4) * 4 + c2 % 4 == c2
  {
  }

  /** The four characters that carry one full group of three bytes. */
  function Group(b0: Byte, b1: Byte, b2: Byte): string {
    [SextetChar(b0 / 4), SextetChar((b0 % 4) * 16 + b1 / 16),
     SextetChar((b1 % 16) * 4 + b2 / 64), SextetChar(b2 % 64)]
  }

  /** A full group decodes to the three bytes it was made from. */
  lemma TripleOfGroup(b0: Byte, b1: Byte, b2: Byte)
    ensures var g := Group(b0, b1, b2); DecodeTriple(g[0], g[1], g[2], g[3]) == Some([b0, b1, b2]) && g[3] != '='
  {
    var v0, v1, v2, v3 := b0 / 4, (b0 % 4) * 16 + b1 / 16, (b1 % 16) * 4 + b2 / 64, b2 % 64;
    SextetRoundTrip(v0);
    SextetRoundTrip(v1);
    SextetRoundTrip(v2);
    SextetRoundTrip(v3);
    GroupArithmetic(b0, b1, b2);
  }

  /** Four characters that decode as a full group are that group's `Group`. */
  lemma GroupOfTriple(q0: char, q1: char, q2: char, q3: char, g: seq<Byte>)
    requires DecodeTriple(q0, q1, q2, q3) == Some(g)
    ensures [q0, q1, q2, q3] == Group(g[0], g[1], g[2])
    ensures q3 != '='
  {
    var v0: int, v1: int, v2: int, v3: int := CharSextet(q0).value, CharSextet(q1).value, CharSextet(q2).value, CharSextet(q3).value;
    CharRoundTrip(q0);
    CharRoundTrip(q1);
    CharRoundTrip(q2);
    CharRoundTrip(q3);
    SplitArithmetic(v0, v1, v2, v3);
    assert g == [v0 * 4 + v1 / 16, (v1 % 16) * 16 + v2 / 4, (v2 % 4) * 64 + v3];
  }

  lemma DecodeOne(b0: Byte)
    ensures Decode(Encode([b0])) == Some([b0])
  {
    assert Encode([b0]) == [SextetChar(b0 / 4), SextetChar((b0 % 4) * 16), '=', '='];
    var v0, v1 := b0 / 4, (b0 % 4) * 16;
    SextetRoundTrip(v0);
    SextetRoundTrip(v1);
    assert v0 * 4 + v1 / 16 == b0;
  }

  lemma DecodeTwo(b0: Byte, b1: Byte)
    ensures Decode(Encode([b0, b1])) == Some([b0, b1])
  {
    assert Encode([b0, b1]) == [SextetChar(b0 / 4), SextetChar((b0 % 4) * 16 + b1 / 16), SextetChar((b1 % 16) * 4), '='];
    var v0, v1, v2 := b0 / 4, (b0 % 4) * 16 + b1 / 16, (b1 % 16) * 4;
    SextetRoundTrip(v0);
    SextetRoundTrip(v1);
    SextetRoundTrip(v2);
    GroupArithmetic(b0, b1, 0);
    assert v0 * 4 + v1 / 16 == b0;
    assert (v1 % 16) * 16 + v2 / 4 == b1;
  }

  lemma DecodeGroup(b0: Byte, b1: Byte, b2: Byte, t: string, rest: seq<Byte>)
    requires Decode(t) == Some(rest)
    ensures Decode(Group(b0, b1, b2) + t) == Some([b0, b1, b2] + rest)
  {
    var g := Group(b0, b1, b2);
    var s := g + t;
    TripleOfGroup(b0, b1, b2);
    assert s[4..] == t;
    assert s[0] == g[0] && s[1] == g[1] && s[2] == g[2] && s[3] == g[3];
  }

  /** Decoding an encoding gives back the bytes. */
  lemma {:induction false} DecodeEncode(b: seq<Byte>)
    ensures Decode(Encode(b)) == Some(b)
    decreases |b|
  {
    if |b| == 1 {
      assert b == [b[0]];
      DecodeOne(b[0]);
    } else if |b| == 2 {
      assert b == [b[0], b[1]];
      DecodeTwo(b[0], b[1]);
    } else if |b| >= 3 {
      var rest := b[3..];
      DecodeEncode(rest);
      DecodeGroup(b[0], b[1], b[2], Encode(rest), rest);
      assert Encode(b) == Group(b[0], b[1], b[2]) + Encode(rest);
      assert b == [b[0], b[1], b[2]] + rest;
    }
  }

  /** A final group ending in '=' is the encoding of the bytes it carries. */
  lemma PaddedEncode(q0: char, q1: char, q2: char, b: seq<Byte>)
    requires DecodePadded(q0, q1, q2) == Some(b)
    ensures [q0, q1, q2, '='] == Encode(b)
  {
    var v0: int, v1: int := CharSextet(q0).value, CharSextet(q1).value;
    CharRoundTrip(q0);
    CharRoundTrip(q1);
    if q2 == '=' {
      SplitArithmetic(v0, v1, 0, 0);
      assert b == [v0 * 4 + v1 / 16];
    } else {
      var v2: int := CharSextet(q2).value;
      CharRoundTrip(q2);
      SplitArithmetic(v0, v1, v2, 0);
      assert b == [v0 * 4 + v1 / 16, (v1 % 16) * 16 + v2 / 4];
    }
  }

  /** The one text that decodes to a byte string is its encoding: decoding
      and encoding are inverse in both directions. */
  lemma {:induction false} EncodeDecode(s: string, b: seq<Byte>)
    requires Decode(s) == Some(b)
    ensures s == Encode(b)
    decreases |s|
  {
    if |s| == 0 {
    } else if |s| == 4 && s[3] == '=' {
      PaddedEncode(s[0], s[1], s[2], b);
      assert s == [s[0], s[1], s[2], '='];
    } else {
      var g := DecodeTriple(s[0], s[1], s[2], s[3]).value;
      var rest := Decode(s[4..]).value;
      assert b == g + rest;
      GroupOfTriple(s[0], s[1], s[2], s[3], g);
      EncodeDecode(s[4..], rest);
      assert b[..3] == g && b[3..] == rest;
      assert Encode(b) == Group(b[0], b[1], b[2]) + Encode(b[3..]);
      assert s == [s[0], s[1], s[2], s[3]] + s[4..];
    }
  }

  /** A text whose pad bits are not zero is refused: "Zh==" and "Zm9=" carry
      the bytes of "f" and "fo" in their leading bits. */
  lemma NonZeroPadBitsRejected()
    ensures Decode("Zh==") == None && Decode("Zm9=") == None
  {
  }

  /** Different byte strings never share an encoding. */
  lemma EncodeInjective(a: seq<Byte>, b: seq<Byte>)
    requires Encode(a) == Encode(b)
    ensures a == b
  {
    DecodeEncode(a);
    DecodeEncode(b);
  }

  /** A JavaScript string all of whose code units are at most 0xFF. */
  predicate IsLatin1(s: string) {
    forall i :: 0 <= i < |s| ==> s[i] as int <= 0xFF
  }

  function Latin1Bytes(s: string): (b: seq<Byte>)
    requires IsLatin1(s)
    ensures |b| == |s|
    ensures forall i :: 0 <= i < |s| ==> b[i] == s[i] as int
  {
    seq(|s|, i requires 0 <= i < |s| => s[i] as int)
  }

  /** What `btoa` throws for a code unit above 0xFF. */
  const InvalidCharacter: Error :=
    Error(OtherKind, "InvalidCharacterError",
          "The string to be encoded contains characters outside of the Latin1 range.", None)

  /** `btoa(s)`: the base64 text of the string's bytes, or a throw when a code
      unit is not a byte. */
  function Btoa(s: string): (r: Result<string>)
    ensures r.Ok? <==> IsLatin1(s)
    ensures r.Ok? ==> Decode(r.value) == Some(Latin1Bytes(s))
    ensures r.Err? ==> r.error == Raised(InvalidCharacter)
  {
    if IsLatin1(s) then
      DecodeEncode(Latin1Bytes(s));
      Ok(Encode(Latin1Bytes(s)))
    else Err(Raised(InvalidCharacter))
  }

  /** `Btoa`'s contract fixes its value: the only text that decodes to the
      string's bytes is the one `btoa` returns. */
  lemma {:induction false} BtoaCanonical(s: string, t: string)
    requires IsLatin1(s)
    requires Decode(t) == Some(Latin1Bytes(s))
    ensures Btoa(s) == Ok(t)
  {
    EncodeDecode(t, Latin1Bytes(s));
  }

  /** `btoa` is one-to-one on the strings it accepts. */
  lemma BtoaInjective(s: string, t: string)
    requires Btoa(s).Ok? && Btoa(t).Ok? && Btoa(s) == Btoa(t)
    ensures s == t
  {
    var bs, bt := Latin1Bytes(s), Latin1Bytes(t);
    assert Some(bs) == Some(bt);
    assert |s| == |t|;
    forall i | 0 <= i < |s| ensures s[i] == t[i] {
      assert bs[i] == bt[i];
    }
  }

  /** Test vectors of section 10 of RFC 4648, with one and two padding
      characters. */
  lemma BtoaPaddedVectors()
    ensures Btoa("f") == Ok("Zg==")
    ensures Btoa("fo") == Ok("Zm8=")
  {
    assert Latin1Bytes("f") == [102];
    assert Latin1Bytes("fo") == [102, 111];
  }

  /** Test vector of section 10 of RFC 4648 without padding. */
  lemma BtoaFoobar()
    ensures Btoa("foobar") == Ok("Zm9vYmFy")
  {
    var b := Latin1Bytes("foobar");
    assert b == [102, 111, 111, 98, 97, 114];
    assert b[3..] == [98, 97, 114];
    assert b[3..][3..] == [];
    assert Encode(b[3..]) == Group(98, 97, 114) + Encode([]);
    assert Encode(b) == Group(102, 111, 111) + Encode(b[3..]);
    assert Group(102, 111, 111) == "Zm9v";
    assert Group(98, 97, 114) == "YmFy";
    assert Encode(b[3..]) == "YmFy";
    assert Encode(b) == "Zm9vYmFy";
    assert Btoa("foobar") == Ok(Encode(b));
  }
}
