/** Base64 with padding (section 4 of RFC 4648), as btoa writes it and Go's StdEncoding
    reads it; line breaks, which Go skips, are not part of this model. */
module Base64 {
  import opened Wrappers
  import opened Bytes

  type Sextet = v: int | 0 <= v < 64

  const PAD: byte := 61

  /** The letter of a 6-bit value: A-Z, a-z, 0-9, + and /. */
  function Letter(v: Sextet): byte {
    if v < 26 then 65 + v else if v < 52 then 71 + v else if v < 62 then v - 4 else if v == 62 then 43 else 47
  }

  function Value(c: byte): Option<Sextet> {
    if 65 <= c <= 90 then Some(c - 65)
    else if 97 <= c <= 122 then Some(c - 71)
    else if 48 <= c <= 57 then Some(c + 4)
    else if c == 43 then Some(62)
    else if c == 47 then Some(63)
    else None
  }

  lemma LetterValue(v: Sextet)
    ensures Value(Letter(v)) == Some(v) && Letter(v) != PAD
  {
  }

  // the bits of three bytes, six by six
  function First(x: byte): Sextet { x / 4 }
  function Second(x: byte, y: byte): Sextet { x % 4 * 16 + y / 16 }
  function Third(y: byte, z: byte): Sextet { y % 16 * 4 + z / 64 }
  function Fourth(z: byte): Sextet { z % 64 }

  // and back, eight by eight
  function High(a: Sextet, b: Sextet): byte { a * 4 + b / 16 }
  function Mid(b: Sextet, c: Sextet): byte { b % 16 * 16 + c / 4 }
  function Low(c: Sextet, d: Sextet): byte { c % 4 * 64 + d }

  lemma Bits(x: byte, y: byte, z: byte)
    ensures High(First(x), Second(x, y)) == x
    ensures Mid(Second(x, y), Third(y, z)) == y
    ensures Low(Third(y, z), Fourth(z)) == z
  {
  }

  function Letters(values: seq<Sextet>): (t: seq<byte>)
    ensures |t| == |values|
  {
    seq(|values|, i requires 0 <= i < |values| => Letter(values[i]))
  }

  function Encode(s: seq<byte>): (t: seq<byte>)
    ensures |t| == (|s| + 2) / 3 * 4
  {
    if s == [] then []
    else if |s| == 1 then Letters([First(s[0]), Second(s[0], 0)]) + [PAD, PAD]
    else if |s| == 2 then Letters([First(s[0]), Second(s[0], s[1]), Third(s[1], 0)]) + [PAD]
    else Letters([First(s[0]), Second(s[0], s[1]), Third(s[1], s[2]), Fourth(s[2])]) + Encode(s[3..])
  }

  /** None for a text that is not base64. */
  function Decode(t: seq<byte>): Option<seq<byte>> {
    if t == [] then Some([])
    else if |t| < 4 || Value(t[0]).None? || Value(t[1]).None? then None
    else
      var a, b := Value(t[0]).value, Value(t[1]).value;
      if t[2..] == [PAD, PAD] then Some([High(a, b)])
      else if Value(t[2]).None? then None
      else
        var c := Value(t[2]).value;
        if t[3..] == [PAD] then Some([High(a, b), Mid(b, c)])
        else if Value(t[3]).None? || Decode(t[4..]).None? then None
        else Some([High(a, b), Mid(b, c), Low(c, Value(t[3]).value)] + Decode(t[4..]).value)
  }

  lemma TwoDecode(a: Sextet, b: Sextet)
    ensures Decode(Letters([a, b]) + [PAD, PAD]) == Some([High(a, b)])
  {
    LetterValue(a);
    LetterValue(b);
    assert (Letters([a, b]) + [PAD, PAD])[2..] == [PAD, PAD];
  }

  lemma ThreeDecode(a: Sextet, b: Sextet, c: Sextet)
    ensures Decode(Letters([a, b, c]) + [PAD]) == Some([High(a, b), Mid(b, c)])
  {
    LetterValue(a);
    LetterValue(b);
    LetterValue(c);
    var t := Letters([a, b, c]) + [PAD];
    assert t[2..][0] == t[2] == Letter(c);
    assert t[3..] == [PAD];
  }

  lemma FourDecode(a: Sextet, b: Sextet, c: Sextet, d: Sextet, rest: seq<byte>, s: seq<byte>)
    requires Decode(rest) == Some(s)
    ensures Decode(Letters([a, b, c, d]) + rest) == Some([High(a, b), Mid(b, c), Low(c, d)] + s)
  {
    LetterValue(a);
    LetterValue(b);
    LetterValue(c);
    LetterValue(d);
    var t := Letters([a, b, c, d]) + rest;
    assert t[2..][0] == t[2] == Letter(c) && t[3..][0] == t[3] == Letter(d);
    assert t[4..] == rest;
  }

  /** One, two and three bytes, written x, y and z. */
  lemma OneByte(x: byte)
    ensures Decode(Letters([First(x), Second(x, 0)]) + [PAD, PAD]) == Some([x])
  {
    Bits(x, 0, 0);
    TwoDecode(First(x), Second(x, 0));
  }

  lemma TwoBytes(x: byte, y: byte)
    ensures Decode(Letters([First(x), Second(x, y), Third(y, 0)]) + [PAD]) == Some([x, y])
  {
    Bits(x, y, 0);
    ThreeDecode(First(x), Second(x, y), Third(y, 0));
  }

  lemma ThreeBytes(x: byte, y: byte, z: byte, rest: seq<byte>, s: seq<byte>)
    requires Decode(rest) == Some(s)
    ensures Decode(Letters([First(x), Second(x, y), Third(y, z), Fourth(z)]) + rest) == Some([x, y, z] + s)
  {
    Bits(x, y, z);
    FourDecode(First(x), Second(x, y), Third(y, z), Fourth(z), rest, s);
  }

  /** Any bytes come back. */
  lemma {:induction false} RoundTrip(s: seq<byte>)
    ensures Decode(Encode(s)) == Some(s)
  {
    if |s| == 1 {
      OneByte(s[0]);
      assert s == [s[0]];
    } else if |s| == 2 {
      TwoBytes(s[0], s[1]);
      assert s == [s[0], s[1]];
    } else if |s| >= 3 {
      RoundTrip(s[3..]);
      ThreeBytes(s[0], s[1], s[2], Encode(s[3..]), s[3..]);
      assert [s[0], s[1], s[2]] + s[3..] == s;
    }
  }
}
