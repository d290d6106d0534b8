/** The standard base64 alphabet with canonical padding, as `BASE64_STANDARD` encodes and decodes (section 4 of RFC 4648). */
module Base64 {
  import opened Bytes

  type Sextet = v: int | 0 <= v < 64

  const PAD: byte := 61

  function Digit(v: Sextet): (c: byte)
    ensures Value(c) == Some(v) && c != PAD
  {
    if v < 26 then 65 + v else if v < 52 then 71 + v else if v < 62 then v - 4 else if v == 62 then 43 else 47
  }

  function Value(c: byte): (v: Option<Sextet>) {
    if 65 <= c <= 90 then Some(c - 65)
    else if 97 <= c <= 122 then Some(c - 71)
    else if 48 <= c <= 57 then Some(c + 4)
    else if c == 43 then Some(62)
    else if c == 47 then Some(63)
    else None
  }

  lemma DigitOfValue(c: byte)
    ensures Value(c).Some? ==> Digit(Value(c).value) == c
  {
  }

  /** One, two or three bytes as four characters. */
  function Quad(b: seq<byte>): (q: seq<byte>)
    requires 1 <= |b| <= 3
    ensures |q| == 4
  {
    var b0: int := b[0];
    if |b| == 1 then [Digit(b0 / 4), Digit(b0 % 4 * 16), PAD, PAD]
    else
      var b1: int := b[1];
      if |b| == 2 then [Digit(b0 / 4), Digit(b0 % 4 * 16 + b1 / 16), Digit(b1 % 16 * 4), PAD]
      else
        var b2: int := b[2];
        [Digit(b0 / 4), Digit(b0 % 4 * 16 + b1 / 16), Digit(b1 % 16 * 4 + b2 / 64), Digit(b2 % 64)]
  }

  /** Strict: padding only where it belongs, and no stray bits under it. */
  function Unquad(q: seq<byte>, last: bool): (b: Option<seq<byte>>)
    requires |q| == 4
    ensures b.Some? ==> 1 <= |b.value| <= 3 && (!last ==> |b.value| == 3)
  {
    var v0, v1, v2, v3 := Value(q[0]), Value(q[1]), Value(q[2]), Value(q[3]);
    if v0.None? || v1.None? then None
    else
      var a: int, b: int := v0.value, v1.value;
      if v2.None? then
        if last && q[2] == PAD && q[3] == PAD && b % 16 == 0 then Some([a * 4 + b / 16]) else None
      else
        var c: int := v2.value;
        if v3.None? then
          if last && q[3] == PAD && c % 4 == 0 then Some([a * 4 + b / 16, b % 16 * 16 + c / 4]) else None
        else
          Some([a * 4 + b / 16, b % 16 * 16 + c / 4, c % 4 * 64 + v3.value])
  }

  lemma QuadInverts(b: seq<byte>, last: bool)
    requires 1 <= |b| <= 3 && (|b| < 3 ==> last)
    ensures Unquad(Quad(b), last) == Some(b)
  {
    var b0: int := b[0];
    if |b| == 1 {
      assert b == [b[0]];
    } else if |b| == 2 {
      var b1: int := b[1];
      assert b == [b[0], b[1]];
    } else {
      var b1: int, b2: int := b[1], b[2];
      assert b == [b[0], b[1], b[2]];
    }
  }

  lemma UnquadInverts(q: seq<byte>, last: bool)
    requires |q| == 4 && Unquad(q, last).Some?
    ensures Quad(Unquad(q, last).value) == q
  {
    DigitOfValue(q[0]);
    DigitOfValue(q[1]);
    DigitOfValue(q[2]);
    DigitOfValue(q[3]);
    var a, b := Value(q[0]).value, Value(q[1]).value;
    if Value(q[2]).None? {
      OneByte(a, b);
    } else if Value(q[3]).None? {
      TwoBytes(a, b, Value(q[2]).value);
    } else {
      ThreeBytes(a, b, Value(q[2]).value, Value(q[3]).value);
    }
  }

  lemma OneByte(a: Sextet, b: Sextet)
    requires b % 16 == 0
    ensures Quad([a * 4 + b / 16]) == [Digit(a), Digit(b), PAD, PAD]
  {
    Carry(a, b, 4, 16);
  }

  lemma TwoBytes(a: Sextet, b: Sextet, c: Sextet)
    requires c % 4 == 0
    ensures Quad([a * 4 + b / 16, b % 16 * 16 + c / 4]) == [Digit(a), Digit(b), Digit(c), PAD]
  {
    Carry(a, b, 4, 16);
    Carry(b % 16, c, 16, 4);
  }

  lemma ThreeBytes(a: Sextet, b: Sextet, c: Sextet, d: Sextet)
    ensures Quad([a * 4 + b / 16, b % 16 * 16 + c / 4, c % 4 * 64 + d]) == [Digit(a), Digit(b), Digit(c), Digit(d)]
  {
    Carry(a, b, 4, 16);
    Carry(b % 16, c, 16, 4);
    Carry(c % 4, d, 64, 1);
  }

  /** A byte that holds `hi` above the top of `lo` gives both back. */
  lemma Carry(hi: int, lo: int, width: int, drop: int)
    requires 0 <= lo < 64 && 0 <= hi && (width, drop) in {(4, 16), (16, 4), (64, 1)}
    ensures var y := hi * width + lo / drop; y / width == hi && y % width * drop + lo % drop == lo
  {
    assert lo / drop < width;
  }

  function Encode(b: seq<byte>): (s: seq<byte>) {
    if b == [] then [] else if |b| <= 3 then Quad(b) else Quad(b[..3]) + Encode(b[3..])
  }

  function Decode(s: seq<byte>): (b: Option<seq<byte>>) {
    if s == [] then Some([])
    else if |s| < 4 then None
    else if |s| == 4 then Unquad(s, true)
    else
      var head, tail := Unquad(s[..4], false), Decode(s[4..]);
      if head.None? || tail.None? then None else Some(head.value + tail.value)
  }

  /** Decoding inverts encoding and accepts nothing else. */
  lemma Base64RoundTrip(s: seq<byte>, b: seq<byte>)
    ensures Decode(s) == Some(b) <==> s == Encode(b)
  {
    EncodeDecodes(b);
    DecodeEncodes(s);
  }

  lemma {:induction false} EncodeDecodes(b: seq<byte>)
    ensures Decode(Encode(b)) == Some(b)
    ensures b != [] ==> |Encode(b)| >= 4
    decreases |b|
  {
    if 0 < |b| <= 3 {
      QuadInverts(b, true);
    } else if |b| > 3 {
      var q, tail := Quad(b[..3]), Encode(b[3..]);
      EncodeDecodes(b[3..]);
      QuadInverts(b[..3], false);
      assert (q + tail)[..4] == q && (q + tail)[4..] == tail;
      assert b[..3] + b[3..] == b;
    }
  }

  lemma {:induction false} DecodeEncodes(s: seq<byte>)
    ensures Decode(s).Some? ==> Encode(Decode(s).value) == s
    ensures Decode(s).Some? && s != [] ==> Decode(s).value != []
    decreases |s|
  {
    if |s| == 4 && Decode(s).Some? {
      UnquadInverts(s, true);
    } else if |s| > 4 && Decode(s).Some? {
      var head, tail := Unquad(s[..4], false).value, Decode(s[4..]).value;
      DecodeEncodes(s[4..]);
      UnquadInverts(s[..4], false);
      assert (head + tail)[..3] == head && (head + tail)[3..] == tail;
      assert s[..4] + s[4..] == s;
    }
  }

  /** The characters of base64 text; among them no comma, colon, dollar or NUL. */
  predicate IsText(s: seq<byte>) {
    forall i :: 0 <= i < |s| ==> Value(s[i]).Some? || s[i] == PAD
  }

  lemma {:induction false} EncodeIsText(b: seq<byte>)
    ensures IsText(Encode(b))
    ensures 44 !in Encode(b) && 58 !in Encode(b) && 36 !in Encode(b) && 0 !in Encode(b) && IsAscii(Encode(b))
    decreases |b|
  {
    if |b| > 3 {
      EncodeIsText(b[3..]);
    }
  }

  lemma {:induction false} EncodeLength(b: seq<byte>)
    ensures |Encode(b)| == (|b| + 2) / 3 * 4
    decreases |b|
  {
    if |b| > 3 {
      EncodeLength(b[3..]);
      assert (|b| - 3 + 2) / 3 + 1 == (|b| + 2) / 3;
    }
  }

  // ---------------------------------------------------------------------------------------------
  // It is the standard encoding

  /** Table 1 of RFC 4648: the capitals, the small letters, the digits, `+` and `/`. */
  lemma Alphabet(v: Sextet)
    ensures Digit(v) == if v < 26 then 'A' as int + v
                        else if v < 52 then 'a' as int + (v - 26)
                        else if v < 62 then '0' as int + (v - 52)
                        else if v == 62 then '+' as int
                        else '/' as int
  {
  }

  /** The same 24 bits. */
  lemma SameBits(a: int, b: int, c: int)
    ensures ((a / 4 * 64 + (a % 4 * 16 + b / 16)) * 64 + (b % 16 * 4 + c / 64)) * 64 + c % 64 == (a * 256 + b) * 256 + c
  {
  }

  lemma QuadOfThree(a: byte, b: byte, c: byte) returns (w: Sextet, x: Sextet, y: Sextet, z: Sextet)
    ensures Quad([a, b, c]) == [Digit(w), Digit(x), Digit(y), Digit(z)]
    ensures w == a as int / 4 && x == a as int % 4 * 16 + b as int / 16 && y == b as int % 16 * 4 + c as int / 64
            && z == c as int % 64
  {
    var a': int, b': int, c': int := a, b, c;
    w, x, y, z := a' / 4, a' % 4 * 16 + b' / 16, b' % 16 * 4 + c' / 64, c' % 64;
  }

  /** Three bytes are four sextets of the same 24 bits, most significant first. */
  lemma QuadIsBigEndian(a: byte, b: byte, c: byte) returns (w: Sextet, x: Sextet, y: Sextet, z: Sextet)
    ensures Quad([a, b, c]) == [Digit(w), Digit(x), Digit(y), Digit(z)]
    ensures ((w * 64 + x) * 64 + y) * 64 + z == (a as int * 256 + b) * 256 + c
  {
    w, x, y, z := QuadOfThree(a, b, c);
    SameBits(a, b, c);
  }

  /** Fewer are padded with zero bits, and the characters that hold no bit of theirs are `=`. */
  lemma QuadPads(a: byte, b: byte)
    ensures Quad([a, b]) == Quad([a, b, 0])[..3] + [61] && Quad([a]) == Quad([a, 0, 0])[..2] + [61, 61]
  {
    QuadOfTwo(a, b);
    QuadOfOne(a);
  }

  lemma QuadOfTwo(a: byte, b: byte)
    ensures Quad([a, b]) == Quad([a, b, 0])[..3] + [61]
  {
    var w, x, y, z := QuadOfThree(a, b, 0);
  }

  lemma QuadOfOne(a: byte)
    ensures Quad([a]) == Quad([a, 0, 0])[..2] + [61, 61]
  {
    var w, x, y, z := QuadOfThree(a, 0, 0);
  }

  /** And longer texts are encoded three bytes at a time. */
  lemma EncodeByThrees(a: seq<byte>, b: seq<byte>)
    requires |a| == 3
    ensures Encode(a + b) == Quad(a) + Encode(b)
  {
    assert (a + b)[..3] == a && (a + b)[3..] == b;
    assert b == [] ==> a + b == a;
  }
}
