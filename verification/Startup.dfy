/** The startup phase: untagged, length-prefixed packets (src/protocol/startup.rs). */
module Startup {
  import opened Bytes
  import opened Codec

  const V3_0 := 196608
  const MAX_MINOR := 2
  const SSL_REQUEST_CODE := 80877103
  const GSSENC_REQUEST_CODE := 80877104
  const CANCEL_REQUEST_CODE := 80877102
  const MAX_STARTUP_PACKET_LEN := 10000

  datatype Param = Param(key: Str, value: Str)

  datatype Request =
    | Ssl
    | GssEnc
    | Cancel(key: seq<byte>)
    | Startup(version: int, parameters: seq<Param>, raw: seq<byte>)
    | Invalid

  // ---------------------------------------------------------------------------------------------
  // Protocol versions: (major << 16) | minor in an i32

  function Major(code: int): (m: int)
    ensures 0 <= m < 0x1_0000
  {
    code % TWO32 / 0x1_0000
  }

  function Minor(code: int): (m: int)
    ensures 0 <= m < 0x1_0000
  {
    code % 0x1_0000
  }

  function AsI32(u: int): (n: int)
    requires 0 <= u < TWO32
    ensures -TWO31 <= n < TWO31
  {
    if u < TWO31 then u else u - TWO32
  }

  /** `negotiated`: the same major, the minor capped. */
  function Negotiated(code: int): (n: int)
    requires -TWO31 <= code < TWO31
    ensures -TWO31 <= n < TWO31
  {
    AsI32(Major(code) * 0x1_0000 + (if Minor(code) < MAX_MINOR then Minor(code) else MAX_MINOR))
  }

  /** Negotiation keeps the major version, never raises the minor, settles at once, and leaves a version alone
      exactly when its minor is supported. It holds for negative codes, whose major has the top bit set. */
  lemma NegotiationSettles(code: int)
    requires -TWO31 <= code < TWO31
    ensures Major(Negotiated(code)) == Major(code)
    ensures Minor(Negotiated(code)) == if Minor(code) <= 2 then Minor(code) else 2
    ensures Negotiated(Negotiated(code)) == Negotiated(code)
    ensures Negotiated(code) == code <==> Minor(code) <= 2
  {
    var u, n := code % TWO32, Negotiated(code);
    assert Minor(code) == u % 0x1_0000;
    assert n % TWO32 == u / 0x1_0000 * 0x1_0000 + (if Minor(code) < MAX_MINOR then Minor(code) else MAX_MINOR);
    assert n % 0x1_0000 == n % TWO32 % 0x1_0000;
  }

  // ---------------------------------------------------------------------------------------------
  // C strings and parameter lists

  /** `read_cstr`: the string before the first NUL, and what follows the NUL. */
  function CStr(buf: seq<byte>): (r: Option<(Str, seq<byte>)>)
    ensures r.Some? ==> |r.value.1| < |buf|
  {
    var nul := IndexOf(buf, 0);
    if nul == |buf| || !ValidUtf8(buf[..nul]) then None else Some((buf[..nul], buf[nul + 1..]))
  }

  /** It inverts NUL-termination, and is the only string it can return. */
  lemma CStrRoundTrip(buf: seq<byte>, s: Str, rest: seq<byte>)
    ensures CStr(buf) == Some((s, rest)) <==> 0 !in s && buf == s + [0] + rest
  {
    if 0 !in s && buf == s + [0] + rest {
      IndexOfAfter(s, 0, rest);
      assert buf[..|s|] == s && buf[|s| + 1..] == rest;
    }
  }

  /** What a parameter list means: pairs up to an empty key; what follows is ignored. */
  function Parameters(buf: seq<byte>): Option<seq<Param>>
    decreases |buf|
  {
    var key := CStr(buf);
    if key.None? then None
    else if key.value.0 == [] then Some([])
    else
      var value := CStr(key.value.1);
      if value.None? then None
      else Prepend([Param(key.value.0, value.value.0)], Parameters(value.value.1))
  }

  function Prepend(ps: seq<Param>, r: Option<seq<Param>>): Option<seq<Param>> {
    if r.None? then None else Some(ps + r.value)
  }

  lemma PrependTwice(ps: seq<Param>, qs: seq<Param>, r: Option<seq<Param>>)
    ensures Prepend(ps, Prepend(qs, r)) == Prepend(ps + qs, r)
  {
    if r.Some? {
      assert ps + (qs + r.value) == (ps + qs) + r.value;
    }
  }

  lemma PrependNothing(r: Option<seq<Param>>)
    ensures Prepend([], r) == r
  {
    assert r.Some? ==> [] + r.value == r.value;
  }

  /** `parse_parameters` */
  method ParseParameters(buf: seq<byte>) returns (r: Option<seq<Param>>)
    ensures r == Parameters(buf)
  {
    var left, parameters := buf, [];
    PrependNothing(Parameters(buf));
    while true
      invariant Parameters(buf) == Prepend(parameters, Parameters(left))
      decreases |left|
    {
      var key := CStr(left);
      if key.None? {
        return None;
      }
      if key.value.0 == [] {
        assert parameters + [] == parameters;
        return Some(parameters);
      }
      var value := CStr(key.value.1);
      if value.None? {
        return None;
      }
      var p := Param(key.value.0, value.value.0);
      PrependTwice(parameters, [p], Parameters(value.value.1));
      parameters := parameters + [p];
      left := value.value.1;
    }
  }

  /** The wire form of a parameter list. */
  function Print(ps: seq<Param>): seq<byte> {
    if ps == [] then [0] else ps[0].key + [0] + (ps[0].value + [0] + Print(ps[1..]))
  }

  predicate Printable(ps: seq<Param>) {
    forall i :: 0 <= i < |ps| ==> ps[i].key != [] && 0 !in ps[i].key && 0 !in ps[i].value
  }

  /** Prefix theorem: a buffer parses to `ps` exactly when `ps` is printable and its wire form is a prefix of it. */
  lemma {:induction false} ParsedIsPrintedPrefix(buf: seq<byte>, ps: seq<Param>)
    ensures Parameters(buf) == Some(ps) <==> Printable(ps) && Print(ps) <= buf
    decreases |buf|
  {
    if Parameters(buf) == Some(ps) {
      ParsedPrints(buf, ps);
    }
    if Printable(ps) && Print(ps) <= buf {
      PrintedPrefixParses(buf, ps);
    }
  }

  lemma PrintedPrefixParses(buf: seq<byte>, ps: seq<Param>)
    requires Printable(ps) && Print(ps) <= buf
    ensures Parameters(buf) == Some(ps)
  {
    var rest := buf[|Print(ps)|..];
    assert Print(ps) + rest == buf;
    PrintedParses(ps, rest);
  }

  lemma {:induction false} ParsedPrints(buf: seq<byte>, ps: seq<Param>)
    requires Parameters(buf) == Some(ps)
    ensures Printable(ps) && Print(ps) <= buf
    decreases |buf|
  {
    var key := CStr(buf).value;
    CStrRoundTrip(buf, key.0, key.1);
    if key.0 != [] {
      var value := CStr(key.1).value;
      CStrRoundTrip(key.1, value.0, value.1);
      var more := Parameters(value.1).value;
      assert ps == [Param(key.0, value.0)] + more && ps[1..] == more;
      ParsedPrints(value.1, more);
      PrefixUnder(value.0 + [0], Print(more), value.1);
      PrefixUnder(key.0 + [0], value.0 + [0] + Print(more), key.1);
    }
  }

  lemma PrefixUnder(a: seq<byte>, b: seq<byte>, c: seq<byte>)
    requires b <= c
    ensures a + b <= a + c
  {
  }

  lemma {:induction false} PrintedParses(ps: seq<Param>, rest: seq<byte>)
    requires Printable(ps)
    ensures Parameters(Print(ps) + rest) == Some(ps)
    decreases |ps|
  {
    var buf := Print(ps) + rest;
    if ps == [] {
      assert buf == [] + [0] + rest;
      CStrRoundTrip(buf, [], rest);
    } else {
      var tail := Print(ps[1..]) + rest;
      var key, value := ps[0].key, ps[0].value;
      var second := value + [0] + tail;
      assert buf == key + [0] + second;
      CStrRoundTrip(buf, key, second);
      CStrRoundTrip(second, value, tail);
      PrintedParses(ps[1..], rest);
      assert [Param(key, value)] + ps[1..] == ps;
    }
  }

  // ---------------------------------------------------------------------------------------------
  // Frames

  /** `startup_message` */
  function StartupFrame(ps: seq<Param>): seq<byte> {
    var body := PutI32(V3_0) + Print(ps);
    PutI32(|body| + 4) + body
  }

  lemma Regrouped(body: seq<byte>, key: seq<byte>, value: seq<byte>, rest: seq<byte>)
    ensures body + (key + [0] + (value + [0] + rest)) == body + key + [0] + value + [0] + rest
  {
  }

  method BuildStartupMessage(ps: seq<Param>) returns (frame: seq<byte>)
    ensures frame == StartupFrame(ps)
  {
    var body := PutI32(V3_0);
    var i := 0;
    while i < |ps|
      invariant 0 <= i <= |ps|
      invariant body + Print(ps[i..]) == PutI32(V3_0) + Print(ps)
    {
      assert ps[i..][1..] == ps[i + 1..];
      Regrouped(body, ps[i].key, ps[i].value, Print(ps[i + 1..]));
      body := body + ps[i].key + [0] + ps[i].value + [0];
      i := i + 1;
    }
    assert ps[i..] == [];
    body := body + [0];
    frame := PutI32(|body| + 4) + body;
  }

  /** `cancel_request_frame` */
  function CancelFrame(key: seq<byte>): seq<byte> {
    PutI32(8 + |key|) + PutI32(CANCEL_REQUEST_CODE) + key
  }

  /** What the front of a stream is, as a startup frame. */
  function StartupFrameOf(s: seq<byte>): Parsed {
    if |s| < 4 then Truncated
    else
      var len := ReadI32(s);
      if !(8 <= len <= MAX_STARTUP_PACKET_LEN) then Rejected(s[4..])
      else if |s| < len then Truncated
      else Complete(s[..len], s[len..])
  }

  /** `read_startup_frame` */
  method ReadStartupFrame(reader: Transport) returns (r: Read<seq<byte>>)
    modifies reader
    ensures match StartupFrameOf(old(reader.unread))
      case Complete(frame, rest) => r == Got(frame) && reader.unread == rest
      case Rejected(rest) => r == Failed(InvalidData) && reader.unread == rest
      case _ => r == Failed(reader.AtEnd()) && reader.unread == []
  {
    ghost var s := reader.unread;
    r := reader.ReadExact(4);
    if !r.Got? {
      return;
    }
    var len := ReadI32(r.value);
    assert len == ReadI32(s);
    if !(8 <= len <= MAX_STARTUP_PACKET_LEN) {
      return Failed(InvalidData);
    }
    var head := PutI32(len);
    I32RoundTripBack(r.value);
    r := reader.ReadExact(len - 4);
    if r.Got? {
      assert head + r.value == s[..len];
      r := Got(head + r.value);
    }
  }

  /** `StartupRequest::parse`; a magic code with the wrong length is read as a protocol version. */
  function Parse(frame: seq<byte>): Request {
    if |frame| < 8 then Invalid
    else
      var len, code := ReadI32(frame[..4]), ReadI32(frame[4..8]);
      if code == SSL_REQUEST_CODE && len == 8 then Ssl
      else if code == GSSENC_REQUEST_CODE && len == 8 then GssEnc
      else if code == CANCEL_REQUEST_CODE && len >= 16 then Cancel(frame[8..])
      else
        var parameters := Parameters(frame[8..]);
        if parameters.None? then Invalid else Startup(code, parameters.value, frame)
  }

  method ReadStartupRequest(reader: Transport) returns (r: Read<Request>)
    modifies reader
    ensures match StartupFrameOf(old(reader.unread))
      case Complete(frame, rest) =>
        reader.unread == rest && r == (if Parse(frame).Invalid? then Failed(InvalidData) else Got(Parse(frame)))
      case Rejected(rest) => r == Failed(InvalidData) && reader.unread == rest
      case _ => r == Failed(reader.AtEnd()) && reader.unread == []
  {
    var frame := ReadStartupFrame(reader);
    if !frame.Got? {
      return Failed(if frame.Failed? then frame.kind else Broken);
    }
    var request := Parse(frame.value);
    r := if request.Invalid? then Failed(InvalidData) else Got(request);
  }

  // ---------------------------------------------------------------------------------------------
  // Round trips

  /** `s` is read and parsed as `request`, leaving `rest`. */
  predicate ReadsAs(s: seq<byte>, request: Request, rest: seq<byte>) {
    var p := StartupFrameOf(s);
    p.Complete? && p.rest == rest && Parse(p.frame) == request
  }

  lemma WholeStartupFrame(frame: seq<byte>, rest: seq<byte>)
    requires |frame| >= 8 && frame[..4] == PutI32(|frame|)
    ensures |frame| <= MAX_STARTUP_PACKET_LEN ==> StartupFrameOf(frame + rest) == Complete(frame, rest)
    ensures StartupFrameOf(frame + rest).Complete? && StartupFrameOf(frame + rest).frame == frame ==>
              |frame| <= MAX_STARTUP_PACKET_LEN
  {
    assert (frame + rest)[..4] == PutI32(|frame|);
    if |frame| < TWO31 {
      I32RoundTrip(|frame|, frame[4..] + rest);
      assert PutI32(|frame|) + (frame[4..] + rest) == frame + rest;
    }
  }

  /** Startup round trip: the parameters come back in order, with the raw frame, exactly when they are printable and
      the frame is within the limit. */
  lemma StartupRoundTrip(ps: seq<Param>, rest: seq<byte>)
    ensures var f := StartupFrame(ps);
      ReadsAs(f + rest, Startup(V3_0, ps, f), rest) <==> Printable(ps) && |f| <= MAX_STARTUP_PACKET_LEN
  {
    var f := StartupFrame(ps);
    PrintNonEmpty(ps);
    assert f[..4] == PutI32(|f|) && f[4..8] == PutI32(V3_0) && f[8..] == Print(ps);
    WholeStartupFrame(f, rest);
    I32RoundTrip(V3_0, []);
    assert PutI32(V3_0) + [] == PutI32(V3_0);
    ParsedIsPrintedPrefix(Print(ps), ps);
    assert Parse(f) == Startup(V3_0, ps, f) <==> Printable(ps);
    if ReadsAs(f + rest, Startup(V3_0, ps, f), rest) {
      ParseKeepsFrame(StartupFrameOf(f + rest).frame);
    }
  }

  lemma PrintNonEmpty(ps: seq<Param>)
    ensures Print(ps) != []
  {
  }

  lemma ParseKeepsFrame(frame: seq<byte>)
    ensures Parse(frame).Startup? ==> Parse(frame).raw == frame
  {
  }

  /** And every startup message accepted from the wire re-prints to a prefix of its frame, up to the length field. */
  lemma AcceptedStartupReprints(s: seq<byte>)
    requires StartupFrameOf(s).Complete? && Parse(StartupFrameOf(s).frame).Startup?
    ensures var frame := StartupFrameOf(s).frame; var m := Parse(frame);
      m.raw == frame <= s && PutI32(m.version) + Print(m.parameters) <= frame[4..] && Printable(m.parameters)
  {
    FrameReprints(StartupFrameOf(s).frame);
  }

  lemma FrameReprints(frame: seq<byte>)
    requires Parse(frame).Startup?
    ensures var m := Parse(frame);
      m.raw == frame && PutI32(m.version) + Print(m.parameters) <= frame[4..] && Printable(m.parameters)
  {
    var m := Parse(frame);
    ParsedPrints(frame[8..], m.parameters);
    I32RoundTripBack(frame[4..8]);
    HeadAndRest(frame, Print(m.parameters));
  }

  lemma HeadAndRest(frame: seq<byte>, p: seq<byte>)
    requires |frame| >= 8 && p <= frame[8..]
    ensures frame[4..8] + p <= frame[4..]
  {
    PrefixUnder(frame[4..8], p, frame[8..]);
    assert frame[4..] == frame[4..8] + frame[8..];
  }

  /** Cancel round trip: exactly for keys of eight bytes or more, within the limit. */
  lemma CancelRoundTrip(key: seq<byte>, rest: seq<byte>)
    ensures ReadsAs(CancelFrame(key) + rest, Cancel(key), rest)
            <==> |key| >= 8 && |CancelFrame(key)| <= MAX_STARTUP_PACKET_LEN
  {
    var f := CancelFrame(key);
    assert f[..4] == PutI32(|f|) && f[4..8] == PutI32(CANCEL_REQUEST_CODE) && f[8..] == key;
    WholeStartupFrame(f, rest);
    I32RoundTrip(CANCEL_REQUEST_CODE, []);
    assert PutI32(CANCEL_REQUEST_CODE) + [] == PutI32(CANCEL_REQUEST_CODE);
    if |f| <= MAX_STARTUP_PACKET_LEN {
      I32RoundTrip(|f|, []);
      assert PutI32(|f|) + [] == PutI32(|f|);
    }
    if ReadsAs(f + rest, Cancel(key), rest) {
      var frame := StartupFrameOf(f + rest).frame;
      assert frame[8..] == key && |frame| == |f|;
      assert f + rest == f + rest && frame == (f + rest)[..|f|] == f;
    }
  }

  /** What is accepted as a cancel request, or as an encryption request, is exactly such a frame. */
  lemma AcceptedRequestsAreExact(s: seq<byte>)
    requires StartupFrameOf(s).Complete?
    ensures var frame := StartupFrameOf(s).frame; forall key ::
      Parse(frame) == Cancel(key) <==> frame == CancelFrame(key) && |key| >= 8
    ensures var frame := StartupFrameOf(s).frame;
      Parse(frame) == Ssl <==> frame == PutI32(8) + PutI32(SSL_REQUEST_CODE)
    ensures var frame := StartupFrameOf(s).frame;
      Parse(frame) == GssEnc <==> frame == PutI32(8) + PutI32(GSSENC_REQUEST_CODE)
  {
    var frame := StartupFrameOf(s).frame;
    assert frame[..4] == s[..4] && ReadI32(frame[..4]) == |frame|;
    assert frame == frame[..4] + frame[4..8] + frame[8..];
    I32RoundTripBack(frame[..4]);
    I32RoundTripBack(frame[4..8]);
    CodesRoundTrip();
    forall key
      ensures Parse(frame) == Cancel(key) <==> frame == CancelFrame(key) && |key| >= 8
    {
      if frame == CancelFrame(key) {
        assert frame[4..8] == PutI32(CANCEL_REQUEST_CODE) && frame[8..] == key;
      }
    }
    if frame == PutI32(8) + PutI32(SSL_REQUEST_CODE) {
      assert frame[4..8] == PutI32(SSL_REQUEST_CODE);
    }
    if frame == PutI32(8) + PutI32(GSSENC_REQUEST_CODE) {
      assert frame[4..8] == PutI32(GSSENC_REQUEST_CODE);
    }
    if |frame| == 8 {
      assert frame[8..] == [];
    }
  }

  lemma CodesRoundTrip()
    ensures ReadI32(PutI32(CANCEL_REQUEST_CODE)) == CANCEL_REQUEST_CODE
    ensures ReadI32(PutI32(SSL_REQUEST_CODE)) == SSL_REQUEST_CODE
    ensures ReadI32(PutI32(GSSENC_REQUEST_CODE)) == GSSENC_REQUEST_CODE
  {
    forall code | code in {CANCEL_REQUEST_CODE, SSL_REQUEST_CODE, GSSENC_REQUEST_CODE}
      ensures ReadI32(PutI32(code)) == code
    {
      I32RoundTrip(code, []);
      assert PutI32(code) + [] == PutI32(code);
    }
  }

  // ---------------------------------------------------------------------------------------------
  // On the wire

  /** A frame is read exactly when it is there whole and its first four bytes are its own length, from 8 to 10000. */
  lemma StartupFrameExactly(s: seq<byte>, frame: seq<byte>, rest: seq<byte>)
    ensures StartupFrameOf(s) == Complete(frame, rest) <==>
              && s == frame + rest && 8 <= |frame| <= 10000
              && frame[..4] == [0, 0, |frame| / 256, |frame| % 256]
  {
    if StartupFrameOf(s) == Complete(frame, rest) {
      assert frame[..4] == s[..4];
      I32RoundTripBack(s[..4]);
      LengthOnTheWire(|frame|);
    }
    if s == frame + rest && 8 <= |frame| <= 10000 && frame[..4] == [0, 0, |frame| / 256, |frame| % 256] {
      LengthOnTheWire(|frame|);
      WholeStartupFrame(frame, rest);
    }
  }

  lemma CodesOnTheWire()
    ensures PutI32(SSL_REQUEST_CODE) == [4, 210, 22, 47] && PutI32(GSSENC_REQUEST_CODE) == [4, 210, 22, 48]
    ensures PutI32(CANCEL_REQUEST_CODE) == [4, 210, 22, 46] && PutI32(V3_0) == [0, 3, 0, 0]
  {
  }

  /** The requests byte for byte: an SSLRequest and a GSSENCRequest are one frame each. */
  lemma EncryptionRequestsOnTheWire(s: seq<byte>)
    requires StartupFrameOf(s).Complete?
    ensures var frame := StartupFrameOf(s).frame;
      && (Parse(frame) == Ssl <==> frame == [0, 0, 0, 8, 4, 210, 22, 47])
      && (Parse(frame) == GssEnc <==> frame == [0, 0, 0, 8, 4, 210, 22, 48])
  {
    AcceptedRequestsAreExact(s);
    EncryptionFrames();
  }

  lemma EncryptionFrames()
    ensures PutI32(8) + PutI32(SSL_REQUEST_CODE) == [0, 0, 0, 8, 4, 210, 22, 47]
    ensures PutI32(8) + PutI32(GSSENC_REQUEST_CODE) == [0, 0, 0, 8, 4, 210, 22, 48]
  {
    CodesOnTheWire();
    LengthOnTheWire(8);
  }

  /** A CancelRequest is its own length, its code and a key of eight bytes or more. */
  lemma CancelRequestsOnTheWire(s: seq<byte>, key: seq<byte>)
    requires StartupFrameOf(s).Complete?
    ensures var frame := StartupFrameOf(s).frame;
      Parse(frame) == Cancel(key) <==>
        |key| >= 8 && frame == [0, 0, |frame| / 256, |frame| % 256] + [4, 210, 22, 46] + key
  {
    AcceptedRequestsAreExact(s);
    CancelOnTheWire(StartupFrameOf(s).frame, key);
  }

  lemma LengthOnTheWire(n: nat)
    requires n <= 10000
    ensures PutI32(n) == [0, 0, n / 256, n % 256]
  {
    assert n % TWO32 == n && n / 0x100_0000 == 0 && n / 0x1_0000 == 0 && n / 256 < 256;
  }

  lemma CancelOnTheWire(frame: seq<byte>, key: seq<byte>)
    requires |frame| <= 10000
    ensures frame == CancelFrame(key) <==> frame == [0, 0, |frame| / 256, |frame| % 256] + [4, 210, 22, 46] + key
  {
    CodesOnTheWire();
    LengthOnTheWire(|frame|);
  }

  /** Any other frame is a startup message exactly when a parameter list follows its version, which is taken as it is. */
  lemma StartupAcceptedExactly(s: seq<byte>, version: int, ps: seq<Param>)
    requires StartupFrameOf(s).Complete? && -TWO31 <= version < TWO31
    ensures var frame := StartupFrameOf(s).frame;
      Parse(frame) == Startup(version, ps, frame) <==>
        && PutI32(version) + Print(ps) <= frame[4..] && Printable(ps)
        && !(frame[4..8] == [4, 210, 22, 46] && |frame| >= 16)
  {
    var p := StartupFrameOf(s);
    var frame := p.frame;
    CodesOnTheWire();
    StartupFrameExactly(s, frame, p.rest);
    I32RoundTripBack(frame[4..8]);
    I32RoundTrip(version, []);
    LengthIs(s);
    PrintNonEmpty(ps);
    ParsedIsPrintedPrefix(frame[8..], ps);
    VersionThenList(frame, version, Print(ps));
  }

  lemma LengthIs(s: seq<byte>)
    requires StartupFrameOf(s).Complete?
    ensures ReadI32(StartupFrameOf(s).frame[..4]) == |StartupFrameOf(s).frame|
  {
  }

  lemma VersionThenList(frame: seq<byte>, version: int, list: seq<byte>)
    requires |frame| >= 8 && -TWO31 <= version < TWO31
    ensures PutI32(version) + list <= frame[4..] <==> ReadI32(frame[4..8]) == version && list <= frame[8..]
  {
    I32RoundTripBack(frame[4..8]);
    I32RoundTrip(version, []);
    assert PutI32(version) + [] == PutI32(version);
    assert frame[4..] == frame[4..8] + frame[8..];
    if PutI32(version) + list <= frame[4..] {
      assert frame[4..8] == PutI32(version);
    }
  }

  /** A built startup message: its length, version 3.0 and the list. */
  lemma StartupOnTheWire(ps: seq<Param>)
    requires |StartupFrame(ps)| <= 10000
    ensures var f := StartupFrame(ps);
      f == [0, 0, |f| / 256, |f| % 256] + [0, 3, 0, 0] + Print(ps)
  {
    CodesOnTheWire();
    var f := StartupFrame(ps);
    LengthOnTheWire(|f|);
  }
}
