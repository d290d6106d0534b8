/** Bytes on the wire: big-endian 32-bit integers, ASCII text and UTF-8 validity. */
module Bytes {

  type byte = x: int | 0 <= x < 256

  datatype Option<+T> = None | Some(value: T)

  const TWO31 := 0x8000_0000
  const TWO32 := 0x1_0000_0000

  /** The four big-endian bytes of `n as i32`: out-of-range values wrap. */
  function PutI32(n: int): (b: seq<byte>)
    ensures |b| == 4
  {
    var u := n % TWO32;
    [u / 0x100_0000, u / 0x1_0000 % 256, u / 256 % 256, u % 256]
  }

  /** `u32::from_be_bytes` on the first four bytes. */
  function ReadU32(b: seq<byte>): (u: int)
    requires |b| >= 4
    ensures 0 <= u < TWO32
  {
    var b0: int, b1: int, b2: int := b[0], b[1], b[2];
    ((b0 * 256 + b1) * 256 + b2) * 256 + b[3]
  }

  /** `i32::from_be_bytes` on the first four bytes. */
  function ReadI32(b: seq<byte>): (n: int)
    requires |b| >= 4
    ensures -TWO31 <= n < TWO31
  {
    var u := ReadU32(b);
    if u < TWO31 then u else u - TWO32
  }

  lemma I32RoundTrip(n: int, tail: seq<byte>)
    requires -TWO31 <= n < TWO31
    ensures ReadI32(PutI32(n) + tail) == n
  {
    var u := n % TWO32;
    var b := PutI32(n) + tail;
    assert b[0] == u / 0x100_0000 && b[1] == u / 0x1_0000 % 256 && b[2] == u / 256 % 256 && b[3] == u % 256;
    assert u / 0x1_0000 / 256 == u / 0x100_0000 && u / 256 / 256 == u / 0x1_0000;
    assert u / 256 * 256 + u % 256 == u;
  }

  lemma I32RoundTripBack(b: seq<byte>)
    requires |b| == 4
    ensures PutI32(ReadI32(b)) == b
  {
    var u := ReadU32(b);
    var b0: int, b1: int, b2: int := b[0], b[1], b[2];
    assert ReadI32(b) % TWO32 == u;
    assert u / 256 == (b0 * 256 + b1) * 256 + b2;
    assert u / 0x1_0000 == b0 * 256 + b1;
    assert u / 0x100_0000 == b0;
  }

  /** ASCII text, without NULs, as bytes. */
  function Ascii(s: string): (b: seq<byte>)
    requires forall i :: 0 <= i < |s| ==> 0 as char < s[i] < 128 as char
    ensures |b| == |s| && IsAscii(b) && 0 !in b
    ensures forall i :: 0 <= i < |s| ==> b[i] == s[i] as int
  {
    seq(|s|, i requires 0 <= i < |s| => s[i] as int)
  }

  predicate IsAscii(s: seq<byte>) {
    forall i :: 0 <= i < |s| ==> s[i] < 128
  }

  predicate Continuation(b: byte) {
    0x80 <= b <= 0xBF
  }

  /** Length of the well-formed UTF-8 sequence that starts `s`, or 0 (table 3-7 of the Unicode standard). */
  function Utf8Width(s: seq<byte>): (w: nat)
    requires s != []
    ensures w <= |s|
  {
    var b := s[0];
    if b < 0x80 then 1
    else if 0xC2 <= b <= 0xDF && |s| >= 2 && Continuation(s[1]) then 2
    else if 0xE0 <= b <= 0xEF && |s| >= 3 && Continuation(s[1]) && Continuation(s[2])
            && (b == 0xE0 ==> s[1] >= 0xA0) && (b == 0xED ==> s[1] <= 0x9F) then 3
    else if 0xF0 <= b <= 0xF4 && |s| >= 4 && Continuation(s[1]) && Continuation(s[2]) && Continuation(s[3])
            && (b == 0xF0 ==> s[1] >= 0x90) && (b == 0xF4 ==> s[1] <= 0x8F) then 4
    else 0
  }

  /** `std::str::from_utf8(s).is_ok()` */
  predicate ValidUtf8(s: seq<byte>) {
    s == [] || (Utf8Width(s) > 0 && ValidUtf8(s[Utf8Width(s)..]))
  }

  /** The bytes of a Rust string. */
  type Str = s: seq<byte> | ValidUtf8(s) witness []

  lemma {:induction false} AsciiIsUtf8(s: seq<byte>)
    requires IsAscii(s)
    ensures ValidUtf8(s)
  {
    if s != [] {
      AsciiIsUtf8(s[1..]);
    }
  }

  lemma Assoc(a: seq<byte>, b: seq<byte>, c: seq<byte>)
    ensures a + b + c == a + (b + c)
  {
  }

  lemma HeadTail<T>(s: seq<T>)
    requires s != []
    ensures [s[0]] + s[1..] == s
  {
  }

  lemma AssocAll(a: seq<seq<byte>>, b: seq<seq<byte>>, c: seq<seq<byte>>)
    ensures a + b + c == a + (b + c)
  {
  }

  /** Index of the first `x`, or `|s|`. */
  function IndexOf(s: seq<byte>, x: byte): (i: nat)
    ensures i <= |s|
    ensures forall j :: 0 <= j < i ==> s[j] != x
    ensures i < |s| ==> s[i] == x
  {
    if s == [] then 0 else if s[0] == x then 0 else 1 + IndexOf(s[1..], x)
  }

  /** The first separator of `pre + [x] + post` is the one after a separator-free `pre`. */
  lemma IndexOfAfter(pre: seq<byte>, x: byte, post: seq<byte>)
    requires x !in pre
    ensures IndexOf(pre + [x] + post, x) == |pre|
  {
    var s := pre + [x] + post;
    assert s[|pre|] == x;
    assert forall j :: 0 <= j < |pre| ==> s[j] == pre[j];
  }

  lemma IndexOfAbsent(s: seq<byte>, x: byte)
    ensures x !in s <==> IndexOf(s, x) == |s|
  {
    var i := IndexOf(s, x);
    if i < |s| {
      assert s[i] in s;
    }
  }
}
