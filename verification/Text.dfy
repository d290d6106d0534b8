/** Text as the protocol code takes it apart: separators, prefixes, and unsigned decimals. */
module Text {
  import opened Bytes

  const COMMA: byte := 44

  /** `strip_prefix` */
  function StripPrefix(s: seq<byte>, prefix: seq<byte>): Option<seq<byte>> {
    if prefix <= s then Some(s[|prefix|..]) else None
  }

  /** `split_once` on one character. */
  function SplitOnce(s: seq<byte>, x: byte): Option<(seq<byte>, seq<byte>)> {
    var i := IndexOf(s, x);
    if i == |s| then None else Some((s[..i], s[i + 1..]))
  }

  lemma SplitOnceAt(s: seq<byte>, x: byte, a: seq<byte>, b: seq<byte>)
    ensures SplitOnce(s, x) == Some((a, b)) <==> x !in a && s == a + [x] + b
  {
    if x !in a && s == a + [x] + b {
      IndexOfAfter(a, x, b);
      assert s[..|a|] == a && s[|a| + 1..] == b;
    }
  }

  // ---------------------------------------------------------------------------------------------
  // Comma-separated attributes

  /** The first attribute that starts with `prefix`: `split(',').find_map(|f| f.strip_prefix(prefix))`. */
  function FirstAttr(s: seq<byte>, prefix: seq<byte>): Option<seq<byte>>
    decreases |s|
  {
    var i := IndexOf(s, COMMA);
    if prefix <= s[..i] then Some(s[|prefix|..i])
    else if i == |s| then None
    else FirstAttr(s[i + 1..], prefix)
  }

  /** The last one. */
  function LastAttr(s: seq<byte>, prefix: seq<byte>): Option<seq<byte>>
    decreases |s|
  {
    var i := IndexOf(s, COMMA);
    var here := StripPrefix(s[..i], prefix);
    if i == |s| then here
    else
      var later := LastAttr(s[i + 1..], prefix);
      if later.Some? then later else here
  }

  /** An attribute at the head, of several or alone. */
  lemma HeadAttr(a: seq<byte>, rest: seq<byte>, prefix: seq<byte>)
    requires COMMA !in a
    ensures FirstAttr(a + [COMMA] + rest, prefix)
            == if prefix <= a then Some(a[|prefix|..]) else FirstAttr(rest, prefix)
    ensures LastAttr(a + [COMMA] + rest, prefix)
            == if LastAttr(rest, prefix).Some? then LastAttr(rest, prefix) else StripPrefix(a, prefix)
  {
    var s := a + [COMMA] + rest;
    IndexOfAfter(a, COMMA, rest);
    assert s[..|a|] == a && s[|a| + 1..] == rest;
    if prefix <= a {
      assert s[|prefix|..|a|] == a[|prefix|..];
    }
  }

  lemma OnlyAttr(a: seq<byte>, prefix: seq<byte>)
    requires COMMA !in a
    ensures FirstAttr(a, prefix) == StripPrefix(a, prefix) == LastAttr(a, prefix)
  {
    IndexOfAbsent(a, COMMA);
    assert a[..|a|] == a;
  }

  /** The attribute `k=v`. */
  function Attr(k: byte, v: seq<byte>): (a: seq<byte>) {
    [k, 61] + v
  }

  lemma AttrStrips(k: byte, v: seq<byte>, x: byte)
    ensures StripPrefix(Attr(k, v), [x, 61]) == if k == x then Some(v) else None
  {
    assert Attr(k, v)[2..] == v && Attr(k, v)[0] == k;
  }

  lemma AttrAtHead(k: byte, v: seq<byte>, rest: seq<byte>, x: byte)
    requires COMMA !in v && k != COMMA
    ensures FirstAttr(Attr(k, v) + [COMMA] + rest, [x, 61]) == if k == x then Some(v) else FirstAttr(rest, [x, 61])
    ensures LastAttr(Attr(k, v) + [COMMA] + rest, [x, 61])
            == if LastAttr(rest, [x, 61]).Some? then LastAttr(rest, [x, 61]) else if k == x then Some(v) else None
  {
    HeadAttr(Attr(k, v), rest, [x, 61]);
    AttrStrips(k, v, x);
  }

  lemma AttrAlone(k: byte, v: seq<byte>, x: byte)
    requires COMMA !in v && k != COMMA
    ensures FirstAttr(Attr(k, v), [x, 61]) == LastAttr(Attr(k, v), [x, 61]) == if k == x then Some(v) else None
  {
    OnlyAttr(Attr(k, v), [x, 61]);
    AttrStrips(k, v, x);
  }

  /** Two attributes with different keys. */
  lemma TwoAttrs(j: byte, u: seq<byte>, k: byte, v: seq<byte>)
    requires COMMA !in u && COMMA !in v && j != COMMA && k != COMMA && j != k
    ensures var s := Attr(j, u) + [COMMA] + Attr(k, v);
      && FirstAttr(s, [j, 61]) == Some(u) == LastAttr(s, [j, 61])
      && FirstAttr(s, [k, 61]) == Some(v) == LastAttr(s, [k, 61])
  {
    AttrAtHead(j, u, Attr(k, v), j);
    AttrAtHead(j, u, Attr(k, v), k);
    AttrAlone(k, v, j);
    AttrAlone(k, v, k);
  }

  predicate OccursAt(s: seq<byte>, pat: seq<byte>, j: nat) {
    j + |pat| <= |s| && s[j..j + |pat|] == pat
  }

  /** `rfind`: where the last occurrence of `pat` starts. */
  function LastIndexOf(s: seq<byte>, pat: seq<byte>): (r: Option<nat>)
    ensures r.Some? ==> OccursAt(s, pat, r.value)
    ensures forall j: nat :: OccursAt(s, pat, j) ==> r.Some? && j <= r.value
    decreases |s|
  {
    if |s| < |pat| then None
    else if s[|s| - |pat|..] == pat then Some(|s| - |pat|)
    else
      var shorter := s[..|s| - 1];
      assert forall j: nat :: OccursAt(s, pat, j) ==> shorter[j..j + |pat|] == pat && OccursAt(shorter, pat, j);
      LastIndexOf(shorter, pat)
  }

  // ---------------------------------------------------------------------------------------------
  // Unsigned decimals

  predicate IsDigit(c: byte) {
    48 <= c <= 57
  }

  predicate IsNumber(s: seq<byte>) {
    forall i :: 0 <= i < |s| ==> IsDigit(s[i])
  }

  /** `Display` for an unsigned integer. */
  function PrintNat(n: nat): (s: seq<byte>)
    ensures s != [] && IsNumber(s)
  {
    if n < 10 then [48 + n] else PrintNat(n / 10) + [48 + n % 10]
  }

  function NumberValue(s: seq<byte>): (n: nat)
    requires IsNumber(s)
  {
    if s == [] then 0
    else
      var d: int := s[|s| - 1];
      NumberValue(s[..|s| - 1]) * 10 + (d - 48)
  }

  /** `str::parse::<u32>`: an optional plus sign before at least one digit, any leading zeros, in range. */
  function ParseU32(s: seq<byte>): (r: Option<nat>)
    ensures r.Some? ==> r.value < TWO32
  {
    var digits := if |s| > 1 && s[0] == 43 then s[1..] else s;
    if digits == [] || !IsNumber(digits) || NumberValue(digits) >= TWO32 then None else Some(NumberValue(digits))
  }

  lemma {:induction false} PrintNatValue(n: nat)
    ensures NumberValue(PrintNat(n)) == n
  {
    if n >= 10 {
      PrintNatValue(n / 10);
      var s := PrintNat(n / 10);
      assert (s + [48 + n % 10])[..|s|] == s;
    }
  }

  /** Printing is parsed back exactly for the numbers in range. */
  lemma DecimalRoundTrip(n: nat)
    ensures ParseU32(PrintNat(n)) == Some(n) <==> n < TWO32
  {
    PrintNatValue(n);
    assert IsDigit(PrintNat(n)[0]);
  }

  // ---------------------------------------------------------------------------------------------
  // UTF-8 and concatenation

  lemma {:induction false} Utf8Concat(a: seq<byte>, b: seq<byte>)
    requires ValidUtf8(a) && ValidUtf8(b)
    ensures ValidUtf8(a + b)
    decreases |a|
  {
    if a == [] {
      assert a + b == b;
    } else {
      var w := Utf8Width(a);
      assert Utf8Width(a + b) == w;
      assert (a + b)[w..] == a[w..] + b;
      Utf8Concat(a[w..], b);
    }
  }
}
