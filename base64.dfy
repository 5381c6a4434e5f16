/**
 * The standard base64 alphabet with `=` padding (section 4 of RFC 4648), which
 * Go's `encoding/json` uses to carry a `[]byte` field as a JSON string. The
 * decoder is Go's default (non-strict) one: unused low bits of the last
 * character of a padded group are ignored.
 */
module Base64 {
  import opened Wrappers

  type byte = x: int | 0 <= x < 256
  type sextet = x: int | 0 <= x < 64

  predicate IsAlphabet(c: char) {
    ('A' <= c <= 'Z') || ('a' <= c <= 'z') || ('0' <= c <= '9') || c == '+' || c == '/'
  }

  /** The value an alphabet character stands for. */
  function Index(c: char): (i: sextet)
    requires IsAlphabet(c)
  {
    if 'A' <= c <= 'Z' then c as int - 'A' as int
    else if 'a' <= c <= 'z' then c as int - 'a' as int + 26
    else if '0' <= c <= '9' then c as int - '0' as int + 52
    else if c == '+' then 62
    else 63
  }

  /** The alphabet character for a 6-bit value; `Index` undoes it. */
  function Char(i: sextet): (c: char)
    ensures IsAlphabet(c) && Index(c) == i
  {
    if i < 26 then ('A' as int + i) as char
    else if i < 52 then ('a' as int + i - 26) as char
    else if i < 62 then ('0' as int + i - 52) as char
    else if i == 62 then '+'
    else '/'
  }

  /** Three bytes as four characters. */
  function EncodeTriple(b0: byte, b1: byte, b2: byte): string {
    [Char(b0 / 4), Char((b0 % 4) * 16 + b1 / 16), Char((b1 % 16) * 4 + b2 / 64), Char(b2 % 64)]
  }

  function Encode(b: seq<byte>): (s: string)
    ensures |s| == if |b| % 3 == 0 then |b| / 3 * 4 else |b| / 3 * 4 + 4
    ensures forall i :: 0 <= i < |s| ==> IsAlphabet(s[i]) || s[i] == '='
    decreases |b|
  {
    if |b| == 0 then ""
    else if |b| == 1 then [Char(b[0] / 4), Char((b[0] % 4) * 16), '=', '=']
    else if |b| == 2 then [Char(b[0] / 4), Char((b[0] % 4) * 16 + b[1] / 16), Char((b[1] % 16) * 4), '=']
    else
      DivStep(|b|);
      EncodeTriple(b[0], b[1], b[2]) + Encode(b[3..])
  }

  lemma DivStep(n: nat)
    requires n >= 3
    ensures (n - 3) / 3 == n / 3 - 1 && (n - 3) % 3 == n % 3
  {
  }

  /** Four characters without padding as three bytes. */
  function DecodeQuad(s: string): (r: Option<seq<byte>>)
    requires |s| == 4
    ensures r.Some? ==> |r.value| == 3
  {
    if IsAlphabet(s[0]) && IsAlphabet(s[1]) && IsAlphabet(s[2]) && IsAlphabet(s[3]) then
      var i0, i1, i2, i3 := Index(s[0]), Index(s[1]), Index(s[2]), Index(s[3]);
      Some([i0 * 4 + i1 / 16, (i1 % 16) * 16 + i2 / 4, (i2 % 4) * 64 + i3])
    else None
  }

  /** The last group of four characters, which may end in one or two `=`. */
  function DecodeLast(s: string): (r: Option<seq<byte>>)
    requires |s| == 4
    ensures r.Some? ==> 1 <= |r.value| <= 3
  {
    if s[2] == '=' && s[3] == '=' then
      if IsAlphabet(s[0]) && IsAlphabet(s[1]) then
        Some([Index(s[0]) * 4 + Index(s[1]) / 16])
      else None
    else if s[3] == '=' then
      if IsAlphabet(s[0]) && IsAlphabet(s[1]) && IsAlphabet(s[2]) then
        var i0, i1, i2 := Index(s[0]), Index(s[1]), Index(s[2]);
        Some([i0 * 4 + i1 / 16, (i1 % 16) * 16 + i2 / 4])
      else None
    else DecodeQuad(s)
  }

  /** Decodes a padded base64 string; `None` is Go's "illegal base64 data". */
  function Decode(s: string): (r: Option<seq<byte>>)
    ensures |s| % 4 != 0 ==> r == None
    decreases |s|
  {
    if |s| == 0 then Some([])
    else if |s| < 4 then None
    else if |s| == 4 then DecodeLast(s)
    else
      match DecodeQuad(s[..4])
      case None => None
      case Some(head) =>
        match Decode(s[4..])
        case None => None
        case Some(tail) => Some(head + tail)
  }

  /** Splitting three bytes into four 6-bit groups and joining them again is the identity. */
  lemma GroupArithmetic(b0: byte, b1: byte, b2: byte)
    ensures var s1, s2 := (b0 % 4) * 16 + b1 / 16, (b1 % 16) * 4 + b2 / 64;
      && (b0 / 4) * 4 + s1 / 16 == b0
      && (s1 % 16) * 16 + s2 / 4 == b1
      && (s2 % 4) * 64 + b2 % 64 == b2
  {
  }

  lemma TripleRoundTrip(b0: byte, b1: byte, b2: byte)
    ensures DecodeQuad(EncodeTriple(b0, b1, b2)) == Some([b0, b1, b2])
  {
    GroupArithmetic(b0, b1, b2);
    var s := EncodeTriple(b0, b1, b2);
    assert Index(s[0]) == b0 / 4 && Index(s[1]) == (b0 % 4) * 16 + b1 / 16;
    assert Index(s[2]) == (b1 % 16) * 4 + b2 / 64 && Index(s[3]) == b2 % 64;
  }

  lemma DecodeFour(s: string)
    requires |s| == 4
    ensures Decode(s) == DecodeLast(s)
  {
  }

  /** The characters that encode one byte, and the arithmetic that reads the byte back from them. */
  lemma OneByteChars(b: seq<byte>) returns (c0: char, c1: char)
    requires |b| == 1
    ensures IsAlphabet(c0) && IsAlphabet(c1)
    ensures Encode(b) == [c0, c1, '=', '=']
    ensures Index(c0) * 4 + Index(c1) / 16 == b[0]
  {
    var x0: int, x1: int := b[0] / 4, (b[0] % 4) * 16;
    GroupArithmetic(b[0], 0, 0);
    c0, c1 := Char(x0), Char(x1);
  }

  lemma OneByteRoundTrip(b: seq<byte>)
    requires |b| == 1
    ensures Decode(Encode(b)) == Some(b)
  {
    var c0, c1 := OneByteChars(b);
    var s := [c0, c1, '=', '='];
    DecodeFour(s);
    DecodeTwoPads(c0, c1);
    assert [Index(c0) * 4 + Index(c1) / 16] == b;
  }

  lemma DecodeTwoPads(c0: char, c1: char)
    requires IsAlphabet(c0) && IsAlphabet(c1)
    ensures DecodeLast([c0, c1, '=', '=']) == Some([Index(c0) * 4 + Index(c1) / 16])
  {
  }

  lemma DecodeOnePad(c0: char, c1: char, c2: char)
    requires IsAlphabet(c0) && IsAlphabet(c1) && IsAlphabet(c2)
    ensures DecodeLast([c0, c1, c2, '=']) ==
      Some([Index(c0) * 4 + Index(c1) / 16, (Index(c1) % 16) * 16 + Index(c2) / 4])
  {
  }

  /** The characters that encode two bytes, and the arithmetic that reads the bytes back from them. */
  lemma TwoBytesChars(b: seq<byte>) returns (c0: char, c1: char, c2: char)
    requires |b| == 2
    ensures IsAlphabet(c0) && IsAlphabet(c1) && IsAlphabet(c2)
    ensures Encode(b) == [c0, c1, c2, '=']
    ensures Index(c0) * 4 + Index(c1) / 16 == b[0]
    ensures (Index(c1) % 16) * 16 + Index(c2) / 4 == b[1]
  {
    var x0: int, x1: int, x2: int := b[0] / 4, (b[0] % 4) * 16 + b[1] / 16, (b[1] % 16) * 4;
    GroupArithmetic(b[0], b[1], 0);
    c0, c1, c2 := Char(x0), Char(x1), Char(x2);
  }

  lemma TwoBytesRoundTrip(b: seq<byte>)
    requires |b| == 2
    ensures Decode(Encode(b)) == Some(b)
  {
    var c0, c1, c2 := TwoBytesChars(b);
    var s := [c0, c1, c2, '='];
    DecodeOnePad(c0, c1, c2);
    DecodeFour(s);
    assert [Index(c0) * 4 + Index(c1) / 16, (Index(c1) % 16) * 16 + Index(c2) / 4] == b;
  }

  lemma ThreeBytesRoundTrip(b: seq<byte>)
    requires |b| == 3
    ensures Decode(Encode(b)) == Some(b)
  {
    var s := EncodeTriple(b[0], b[1], b[2]);
    TripleRoundTrip(b[0], b[1], b[2]);
    assert Encode(b) == s + Encode(b[3..]) && Encode(b[3..]) == "";
    assert s + "" == s;
    assert IsAlphabet(s[2]) && IsAlphabet(s[3]);
    assert DecodeLast(s) == DecodeQuad(s);
    DecodeFour(s);
    assert b == [b[0], b[1], b[2]];
  }

  /** A group of four unpadded characters in front of a longer text decodes on its own. */
  lemma DecodeFront(s: string, t: string)
    requires |s| == 4 && |t| >= 4
    ensures Decode(s + t) == match DecodeQuad(s)
      case None => None
      case Some(head) => match Decode(t)
        case None => None
        case Some(tail) => Some(head + tail)
  {
    assert (s + t)[..4] == s && (s + t)[4..] == t;
  }

  /** Any non-empty byte string takes at least one group of four characters. */
  lemma EncodeNonEmpty(b: seq<byte>)
    requires |b| > 0
    ensures |Encode(b)| >= 4
  {
    if |b| >= 3 {
      assert Encode(b) == EncodeTriple(b[0], b[1], b[2]) + Encode(b[3..]);
    }
  }

  lemma SplitThree(b: seq<byte>)
    requires |b| >= 3
    ensures b == [b[0], b[1], b[2]] + b[3..]
  {
  }

  /** A group of three bytes in front of a text that round-trips lets the whole text round-trip. */
  lemma LongerRoundTrip(b: seq<byte>)
    requires |b| > 3
    requires Decode(Encode(b[3..])) == Some(b[3..])
    ensures Decode(Encode(b)) == Some(b)
  {
    var head := EncodeTriple(b[0], b[1], b[2]);
    var rest := Encode(b[3..]);
    TripleRoundTrip(b[0], b[1], b[2]);
    assert Encode(b) == head + rest;
    EncodeNonEmpty(b[3..]);
    DecodeFront(head, rest);
    SplitThree(b);
  }

  /** Every byte string survives encoding followed by decoding. */
  lemma {:induction false} RoundTrip(b: seq<byte>)
    ensures Decode(Encode(b)) == Some(b)
    decreases |b|
  {
    if |b| == 0 {
    } else if |b| == 1 {
      OneByteRoundTrip(b);
    } else if |b| == 2 {
      TwoBytesRoundTrip(b);
    } else if |b| == 3 {
      ThreeBytesRoundTrip(b);
    } else {
      RoundTrip(b[3..]);
      LongerRoundTrip(b);
    }
  }
}
