/** The text of a simple query (src/proxy/custom.rs:149-174): where it ends, what is trimmed off it, and the word it starts with. */
module QueryText {
  import opened Bytes

  /** `query_sql` */
  function QuerySql(payload: seq<byte>): (sql: seq<byte>)
    ensures ValidUtf8(sql)
  {
    var s := payload[..IndexOf(payload, 0)];
    if ValidUtf8(s) then s else []
  }

  /** The text before the first NUL, or all of it; empty if that is not UTF-8. */
  lemma QuerySqlExactly(s: seq<byte>, rest: seq<byte>)
    requires 0 !in s
    ensures QuerySql(s + [0] + rest) == QuerySql(s) == if ValidUtf8(s) then s else []
  {
    IndexOfAfter(s, 0, rest);
    IndexOfAbsent(s, 0);
    assert (s + [0] + rest)[..|s|] == s && s[..|s|] == s;
  }

  /** Bytes of the white-space character that starts `s`, or 0: the White_Space property of Unicode, in UTF-8. */
  function SpaceAtStart(s: seq<byte>): (w: nat)
    ensures w <= |s|
  {
    if |s| >= 1 && (9 <= s[0] <= 13 || s[0] == 32) then 1
    else if |s| >= 2 && s[0] == 0xC2 && (s[1] == 0x85 || s[1] == 0xA0) then 2
    else if |s| >= 3 && WideSpace(s[0], s[1], s[2]) then 3
    else 0
  }

  predicate WideSpace(a: byte, b: byte, c: byte) {
    || (a == 0xE1 && b == 0x9A && c == 0x80)
    || (a == 0xE2 && b == 0x80 && (0x80 <= c <= 0x8A || c == 0xA8 || c == 0xA9 || c == 0xAF))
    || (a == 0xE2 && b == 0x81 && c == 0x9F)
    || (a == 0xE3 && b == 0x80 && c == 0x80)
  }

  /** The same at the end. */
  function SpaceAtEnd(s: seq<byte>): (w: nat)
    ensures w <= |s|
  {
    var n := |s|;
    if n >= 1 && (9 <= s[n - 1] <= 13 || s[n - 1] == 32) then 1
    else if n >= 2 && s[n - 2] == 0xC2 && (s[n - 1] == 0x85 || s[n - 1] == 0xA0) then 2
    else if n >= 3 && WideSpace(s[n - 3], s[n - 2], s[n - 1]) then 3
    else 0
  }

  function TrimStart(s: seq<byte>): (t: seq<byte>)
    ensures SpaceAtStart(t) == 0
  {
    if SpaceAtStart(s) == 0 then s else TrimStart(s[SpaceAtStart(s)..])
  }

  function TrimEnd(s: seq<byte>): (t: seq<byte>)
    ensures t <= s && SpaceAtEnd(t) == 0
  {
    if SpaceAtEnd(s) == 0 then s else TrimEnd(s[..|s| - SpaceAtEnd(s)])
  }

  function Trim(s: seq<byte>): seq<byte> {
    TrimEnd(TrimStart(s))
  }

  /** `trim_end_matches(';')` */
  function TrimSemicolons(s: seq<byte>): (t: seq<byte>)
    ensures t <= s && (t != [] ==> t[|t| - 1] != 59)
  {
    if s == [] || s[|s| - 1] != 59 then s else TrimSemicolons(s[..|s| - 1])
  }

  function Trimmed(sql: seq<byte>): seq<byte> {
    Trim(TrimSemicolons(Trim(sql)))
  }

  /** What precedes the first white space. */
  function FirstWord(s: seq<byte>): seq<byte> {
    if s == [] || SpaceAtStart(s) > 0 then [] else [s[0]] + FirstWord(s[1..])
  }

  /** `to_ascii_uppercase` */
  function Upper(s: seq<byte>): (t: seq<byte>)
    ensures |t| == |s|
  {
    seq(|s|, i requires 0 <= i < |s| => if 97 <= s[i] <= 122 then s[i] - 32 else s[i])
  }

  /** The word `run_query` goes by. */
  function WordOf(sql: seq<byte>): seq<byte> {
    Upper(FirstWord(TrimStart(Trimmed(sql))))
  }

  predicate Blank(b: byte) {
    9 <= b <= 13 || b == 32
  }

  predicate Letter(b: byte) {
    65 <= b <= 90 || 97 <= b <= 122
  }

  predicate Word(w: seq<byte>) {
    w != [] && forall i :: 0 <= i < |w| ==> Letter(w[i])
  }

  lemma {:induction false} TrimStartDropsBlanks(pre: seq<byte>, w: seq<byte>, post: seq<byte>)
    requires Word(w) && forall i :: 0 <= i < |pre| ==> Blank(pre[i])
    ensures TrimStart(pre + (w + post)) == w + post
  {
    if pre == [] {
      assert pre + (w + post) == w + post;
    } else {
      assert (pre + (w + post))[1..] == pre[1..] + (w + post);
      TrimStartDropsBlanks(pre[1..], w, post);
    }
  }

  /** White space at the end of a text is behind the word it starts with. */
  lemma SpaceIsBehindWord(w: seq<byte>, post: seq<byte>)
    requires Word(w)
    ensures SpaceAtEnd(w + post) <= |post|
  {
    var s := w + post;
    var k := SpaceAtEnd(s);
    assert Letter(s[|w| - 1]) && forall j :: |s| - k <= j < |s| ==> !Letter(s[j]);
  }

  /** So trimming the end never reaches into that word. */
  lemma {:induction false} TrimEndKeepsWord(w: seq<byte>, post: seq<byte>) returns (n: nat)
    requires Word(w)
    ensures n <= |post| && TrimEnd(w + post) == w + post[..n]
    decreases |post|
  {
    var s := w + post;
    var k := SpaceAtEnd(s);
    n := |post|;
    assert post[..n] == post;
    if k > 0 {
      SpaceIsBehindWord(w, post);
      var shorter := post[..|post| - k];
      assert s[..|s| - k] == w + shorter;
      n := TrimEndKeepsWord(w, shorter);
      assert shorter[..n] == post[..n];
    }
  }

  predicate AllSemicolons(s: seq<byte>) {
    forall i :: 0 <= i < |s| ==> s[i] == 59
  }

  lemma {:induction false} SemicolonsKeepWord(w: seq<byte>, post: seq<byte>) returns (n: nat)
    requires Word(w)
    ensures n <= |post| && TrimSemicolons(w + post) == w + post[..n] && (AllSemicolons(post) ==> n == 0)
    decreases |post|
  {
    var s := w + post;
    n := |post|;
    assert post[..n] == post;
    if s[|s| - 1] == 59 {
      assert post != [];
      var shorter := post[..|post| - 1];
      assert s[..|s| - 1] == w + shorter;
      n := SemicolonsKeepWord(w, shorter);
      assert shorter[..n] == post[..n];
    }
  }

  lemma {:induction false} FirstWordIs(w: seq<byte>, post: seq<byte>)
    requires (forall i :: 0 <= i < |w| ==> Letter(w[i])) && (post == [] || Blank(post[0]))
    ensures FirstWord(w + post) == w
  {
    if w == [] {
      assert w + post == post;
    } else {
      assert (w + post)[1..] == w[1..] + post;
      FirstWordIs(w[1..], post);
    }
  }

  /** A text that starts with the word `w`, whatever blanks come before it, whether it ends there, at a blank or at closing
      semicolons. (At a semicolon with more text behind it the word does not end.) */
  predicate StartsWith(pre: seq<byte>, w: seq<byte>, post: seq<byte>) {
    && Word(w) && (forall i :: 0 <= i < |pre| ==> Blank(pre[i]))
    && (post == [] || Blank(post[0]) || AllSemicolons(post))
  }

  /** It is that word, in capitals. */
  lemma WordIsFirst(pre: seq<byte>, w: seq<byte>, post: seq<byte>)
    requires StartsWith(pre, w, post)
    ensures WordOf(pre + (w + post)) == Upper(w)
  {
    var n := TrimmedKeepsWord(pre, w, post);
    StartKept(w, post[..n]);
    FirstWordIs(w, post[..n]);
  }

  /** What trimming leaves: the word, and some of what follows it. */
  lemma TrimmedKeepsWord(pre: seq<byte>, w: seq<byte>, post: seq<byte>) returns (n: nat)
    requires Word(w) && forall i :: 0 <= i < |pre| ==> Blank(pre[i])
    ensures n <= |post| && Trimmed(pre + (w + post)) == w + post[..n] && (AllSemicolons(post) ==> n == 0)
  {
    var n1 := TrimKeepsWord(pre, w, post);
    var n2 := SemicolonsKeepWord(w, post[..n1]);
    Shorter(post, n1, n2);
    assert [] + (w + post[..n2]) == w + post[..n2];
    n := TrimKeepsWord([], w, post[..n2]);
    Shorter(post, n2, n);
  }

  lemma TrimKeepsWord(pre: seq<byte>, w: seq<byte>, post: seq<byte>) returns (n: nat)
    requires Word(w) && forall i :: 0 <= i < |pre| ==> Blank(pre[i])
    ensures n <= |post| && Trim(pre + (w + post)) == w + post[..n]
  {
    TrimStartDropsBlanks(pre, w, post);
    n := TrimEndKeepsWord(w, post);
  }

  lemma Shorter(s: seq<byte>, m: nat, n: nat)
    requires n <= m <= |s|
    ensures s[..m][..n] == s[..n]
  {
  }

  lemma StartKept(w: seq<byte>, post: seq<byte>)
    requires Word(w)
    ensures TrimStart(w + post) == w + post
  {
    assert [] + (w + post) == w + post;
    TrimStartDropsBlanks([], w, post);
  }

  // ---------------------------------------------------------------------------------------------
  // What trimming drops

  /** White space and nothing else. */
  predicate Spaces(s: seq<byte>) {
    s == [] || (SpaceAtStart(s) > 0 && Spaces(s[SpaceAtStart(s)..]))
  }

  lemma {:induction false} SpacesConcat(a: seq<byte>, b: seq<byte>)
    requires Spaces(a) && Spaces(b)
    ensures Spaces(a + b)
  {
    if a == [] {
      assert a + b == b;
    } else {
      SpacesConcat(a[SpaceAtStart(a)..], b);
      SpaceInFront(a, b);
    }
  }

  lemma SpaceInFront(a: seq<byte>, b: seq<byte>)
    requires SpaceAtStart(a) > 0
    ensures SpaceAtStart(a + b) == SpaceAtStart(a) && (a + b)[SpaceAtStart(a)..] == a[SpaceAtStart(a)..] + b
  {
  }

  /** One white-space character. */
  predicate OneSpace(s: seq<byte>) {
    s != [] && SpaceAtStart(s) == |s|
  }

  lemma OneSpaceIsSpaces(s: seq<byte>)
    requires OneSpace(s)
    ensures Spaces(s)
  {
    assert s[|s|..] == [];
  }

  lemma FrontSpace(s: seq<byte>)
    requires SpaceAtStart(s) > 0
    ensures OneSpace(s[..SpaceAtStart(s)])
  {
  }

  lemma BackSpace(s: seq<byte>)
    requires SpaceAtEnd(s) > 0
    ensures OneSpace(s[|s| - SpaceAtEnd(s)..])
  {
  }

  lemma {:induction false} TrimStartDrops(s: seq<byte>) returns (a: seq<byte>)
    ensures Spaces(a) && s == a + TrimStart(s)
    decreases |s|
  {
    var w := SpaceAtStart(s);
    if w == 0 {
      return [];
    }
    var space, rest := s[..w], s[w..];
    a := TrimStartDrops(rest);
    FrontSpace(s);
    OneSpaceIsSpaces(space);
    a := SpaceBefore(space, a, TrimStart(rest));
    assert s == space + rest;
  }

  lemma SpaceBefore(a: seq<byte>, b: seq<byte>, t: seq<byte>) returns (c: seq<byte>)
    requires Spaces(a) && Spaces(b)
    ensures Spaces(c) && a + (b + t) == c + t
  {
    c := a + b;
    SpacesConcat(a, b);
    Assoc(a, b, t);
  }

  lemma OneMoreSpace(t: seq<byte>, a: seq<byte>, b: seq<byte>) returns (c: seq<byte>)
    requires Spaces(a) && Spaces(b)
    ensures Spaces(c) && t + a + b == t + c
  {
    c := a + b;
    SpacesConcat(a, b);
    Assoc(t, a, b);
  }

  lemma {:induction false} TrimEndDrops(s: seq<byte>) returns (b: seq<byte>)
    ensures Spaces(b) && s == TrimEnd(s) + b
    decreases |s|
  {
    var w := SpaceAtEnd(s);
    if w == 0 {
      return [];
    }
    var shorter, space := s[..|s| - w], s[|s| - w..];
    b := TrimEndDrops(shorter);
    BackSpace(s);
    OneSpaceIsSpaces(space);
    b := OneMoreSpace(TrimEnd(shorter), b, space);
    assert s == shorter + space;
  }

  lemma {:induction false} TrimSemicolonsDrops(s: seq<byte>) returns (c: seq<byte>)
    ensures AllSemicolons(c) && s == TrimSemicolons(s) + c
    decreases |s|
  {
    c := [];
    if s != [] && s[|s| - 1] == 59 {
      c := TrimSemicolonsDrops(s[..|s| - 1]);
      c := c + [59];
    }
  }

  /** What the handler is given of a query: all of it but white space in front, and at the end white space, the closing
      semicolons, and the white space before those; no white space is left at either end, and no semicolon unless
      white space was behind it. */
  ghost predicate Trims(sql: seq<byte>, t: seq<byte>, a: seq<byte>, b: seq<byte>, c: seq<byte>, d: seq<byte>) {
    && sql == a + (t + b + c) + d && Spaces(a) && Spaces(b) && AllSemicolons(c) && Spaces(d)
    && SpaceAtStart(t) == 0 == SpaceAtEnd(t) && (t != [] && b == [] ==> t[|t| - 1] != 59)
  }

  lemma TrimmedExactly(sql: seq<byte>) returns (a: seq<byte>, b: seq<byte>, c: seq<byte>, d: seq<byte>)
    ensures Trims(sql, Trimmed(sql), a, b, c, d)
  {
    var s1 := TrimStart(sql);
    var s2 := TrimEnd(s1);
    var s3 := TrimSemicolons(s2);
    a := TrimStartDrops(sql);
    d := TrimEndDrops(s1);
    c := TrimSemicolonsDrops(s2);
    StaysTrimmed(s1, s2);
    StaysTrimmed(s2, s3);
    b := TrimEndDrops(s3);
    StaysTrimmed(s3, TrimEnd(s3));
    assert TrimEnd(s3) == Trimmed(sql);
    assert s3 == Trimmed(sql) + b && s2 == s3 + c && s1 == s2 + d && sql == a + s1;
    Assoc(a, s2, d);
    NoSemicolonLeft(s3, Trimmed(sql), b);
  }

  lemma NoSemicolonLeft(s: seq<byte>, t: seq<byte>, b: seq<byte>)
    requires s == t + b && (s != [] ==> s[|s| - 1] != 59)
    ensures t != [] && b == [] ==> t[|t| - 1] != 59
  {
  }

  /** A prefix of a text that starts with no white space does not either. */
  lemma StaysTrimmed(s: seq<byte>, t: seq<byte>)
    requires t <= s && SpaceAtStart(s) == 0
    ensures SpaceAtStart(t) == 0 && TrimStart(t) == t
  {
  }
}
