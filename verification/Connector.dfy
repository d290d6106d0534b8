/** Establishing a pooled backend (src/pool.rs:144-225): satisfy its authentication, then capture what it reports up to
    its first ReadyForQuery. */
module Connector {
  import opened Bytes
  import opened Codec
  import opened ScramCrypto
  import Direct
  import ScramMessages
  import ScramServer
  import ScramClient
  import ScramChain
  import ScramSecret
  import Startup

  const AUTH_OK := 0
  const AUTH_CLEARTEXT_PASSWORD := 3
  const AUTH_SASL := 10

  /** The role's password, if one is configured, and the nonce drawn for the i-th SASL exchange. */
  datatype Credentials = Credentials(h: Hash, password: Option<seq<byte>>, nonce: nat -> Str)

  /** `auth_subtype`: -1 for a truncated message. */
  function AuthSubtype(f: Direct.Message): int {
    if |Payload(f)| >= 4 then ReadI32(Payload(f)[..4]) else -1
  }

  function SaslClient(c: Credentials, i: nat): ScramClient.Client
    requires c.password.Some?
  {
    ScramClient.Client(c.h, c.nonce(i), ScramClient.Deriving(c.h, c.password.value))
  }

  // ---------------------------------------------------------------------------------------------
  // Authentication

  datatype Authenticated = Authenticated(output: seq<byte>, rest: seq<byte>) | Unauthenticated(output: seq<byte>)

  /** What is left of a stream is no longer than the stream. */
  lemma ConverseShrinks(cl: ScramClient.Client, sent: seq<byte>, sasl: seq<byte>, input: seq<byte>)
    requires |sasl| >= 5
    ensures |ScramClient.Converse(cl, sent, sasl, input).rest| <= |input|
  {
    var p := ParseOne(input, MAX_MESSAGE_LEN);
    ParseShrinks(input);
    if p.Complete? && ScramClient.OnContinue(cl, p.frame).Some? {
      var answer := ScramClient.OnContinue(cl, p.frame).value;
      var said := sent + ScramClient.FirstFrame(cl) + ScramMessages.SaslResponse(answer.response);
      SignatureShrinks(cl, answer, said, p.rest);
    }
  }

  lemma ParseShrinks(input: seq<byte>)
    ensures var p := ParseOne(input, MAX_MESSAGE_LEN);
      if p.Complete? then |p.rest| < |input| else |AfterFailedRead(p)| <= |input|
  {
  }

  lemma SignatureShrinks(cl: ScramClient.Client, answer: ScramClient.Answer, sent: seq<byte>, input: seq<byte>)
    ensures |ScramClient.FromSignature(cl, answer, sent, input).rest| <= |input|
  {
    ParseShrinks(input);
  }

  /** The authentication phase, as a function of the backend's bytes: `i` exchanges done and `sent` written so far. */
  function Authenticate(c: Credentials, i: nat, sent: seq<byte>, input: seq<byte>): Authenticated
    decreases |input|
  {
    var p := ParseOne(input, MAX_MESSAGE_LEN);
    if !p.Complete? || p.frame[0] != AUTHENTICATION then Unauthenticated(sent)
    else if AuthSubtype(p.frame) == AUTH_OK then Authenticated(sent, p.rest)
    else if c.password.None? then Unauthenticated(sent)
    else if AuthSubtype(p.frame) == AUTH_CLEARTEXT_PASSWORD then
      Authenticate(c, i, sent + Frame(PASSWORD_MESSAGE, c.password.value + [0]), p.rest)
    else if AuthSubtype(p.frame) == AUTH_SASL then
      var o := ScramClient.Converse(SaslClient(c, i), sent, p.frame, p.rest);
      ConverseShrinks(SaslClient(c, i), sent, p.frame, p.rest);
      if o.ok then Authenticate(c, i + 1, o.output, o.rest) else Unauthenticated(o.output)
    else Unauthenticated(sent)
  }

  method RunAuthentication(c: Credentials, reader: Transport, conn: Sink, pace: nat -> nat) returns (ok: bool)
    modifies reader, conn
    ensures match Authenticate(c, 0, old(conn.written), old(reader.unread))
      case Authenticated(output, rest) => ok && conn.written == output && reader.unread == rest
      case Unauthenticated(output) => !ok && conn.written == output
  {
    var i := 0;
    while true
      invariant Authenticate(c, 0, old(conn.written), old(reader.unread))
                == Authenticate(c, i, conn.written, reader.unread)
      decreases |reader.unread|
    {
      var msg := ReadMessageCapped(reader, MAX_MESSAGE_LEN, pace);
      if !msg.Got? || Tag(msg.value) != AUTHENTICATION {
        return false;
      }
      var subtype := AuthSubtype(msg.value);
      if subtype == AUTH_OK {
        return true;
      }
      if subtype == AUTH_CLEARTEXT_PASSWORD && c.password.Some? {
        conn.Write(Frame(PASSWORD_MESSAGE, c.password.value + [0]));
      } else if subtype == AUTH_SASL && c.password.Some? {
        ConverseShrinks(SaslClient(c, i), conn.written, msg.value, reader.unread);
        var proved := ScramClient.AuthenticatePassword(c.h, c.nonce(i), c.password.value, msg.value, reader, conn, pace);
        if !proved {
          return false;
        }
        i := i + 1;
      } else {
        return false;
      }
    }
  }

  // ---------------------------------------------------------------------------------------------
  // What the backend reports

  /** Up to the first ReadyForQuery, without an error. */
  predicate IsReport(frames: seq<seq<byte>>) {
    && Direct.Framed(frames) && frames != [] && frames[|frames| - 1][0] == READY_FOR_QUERY && Quiet(frames[..|frames| - 1])
  }

  predicate Quiet(frames: seq<seq<byte>>) {
    forall i :: 0 <= i < |frames| ==>
      Direct.IsFrame(frames[i]) && frames[i][0] != READY_FOR_QUERY && frames[i][0] != ERROR_RESPONSE
  }

  /** The ParameterStatus frames among them, in order. */
  function Params(frames: seq<seq<byte>>): (ps: seq<seq<byte>>)
    requires Direct.Framed(frames)
  {
    if frames == [] then []
    else
      var f := frames[|frames| - 1];
      Params(frames[..|frames| - 1]) + if f[0] == PARAMETER_STATUS then [f] else []
  }

  /** The last cancel key. */
  function LastKey(frames: seq<seq<byte>>): Option<seq<byte>>
    requires Direct.Framed(frames)
  {
    if frames == [] then None
    else if frames[|frames| - 1][0] == BACKEND_KEY_DATA then Some(Payload(frames[|frames| - 1]))
    else LastKey(frames[..|frames| - 1])
  }

  lemma ReportSnoc(frames: seq<seq<byte>>, f: Direct.Message)
    requires Direct.Framed(frames)
    ensures Direct.Framed(frames + [f])
    ensures Params(frames + [f]) == Params(frames) + if f[0] == PARAMETER_STATUS then [f] else []
    ensures LastKey(frames + [f]) == if f[0] == BACKEND_KEY_DATA then Some(Payload(f)) else LastKey(frames)
  {
    assert (frames + [f])[..|frames|] == frames;
  }

  /** Whether the stream has a report at its head. */
  ghost predicate Reports(input: seq<byte>, n: nat) {
    n <= |Direct.Messages(input)| && IsReport(Direct.Messages(input)[..n])
  }

  /** After quiet messages, one that neither goes on nor ends a report, or the end of the stream, rules one out. */
  lemma NoReport(input: seq<byte>, seen: seq<seq<byte>>, left: seq<byte>)
    requires Direct.ReadSoFar(input, seen, left) && Quiet(seen)
    requires var p := ParseOne(left, MAX_MESSAGE_LEN); p.Complete? ==> p.frame[0] == ERROR_RESPONSE
    ensures forall n :: !Reports(input, n)
  {
    Direct.NextMessage(left);
    var all := Direct.Messages(input);
    assert all[..|seen|] == seen;
    forall n: nat
      ensures !Reports(input, n)
    {
      if n <= |all| && IsReport(all[..n]) {
        ReportGoesOn(all, |seen|, n);
      }
    }
  }

  lemma ReportGoesOn(all: seq<seq<byte>>, k: nat, n: nat)
    requires k <= |all| && Quiet(all[..k]) && n <= |all| && IsReport(all[..n])
    ensures k < n && Direct.IsFrame(all[k]) && all[k][0] != ERROR_RESPONSE
  {
    assert k < n - 1 ==> all[..n][..n - 1][k] == all[k];
  }

  /** The loop after AuthenticationOk. It succeeds exactly when the backend reports up to a ReadyForQuery without an error; then it
      has captured every ParameterStatus, in order, and the last cancel key, and has read nothing further. */
  method Capture(reader: Transport, pace: nat -> nat)
    returns (ok: bool, params: seq<seq<byte>>, key: Option<seq<byte>>, ghost seen: seq<seq<byte>>)
    modifies reader
    ensures ok <==> exists n :: Reports(old(reader.unread), n)
    ensures ok ==> IsReport(seen) && Direct.ReadSoFar(old(reader.unread), seen, reader.unread)
                   && params == Params(seen) && key == LastKey(seen)
  {
    ghost var input := reader.unread;
    params, key, seen := [], None, [];
    assert [] + Direct.Messages(input) == Direct.Messages(input) && [] + input == input;
    while true
      invariant Direct.ReadSoFar(input, seen, reader.unread) && Quiet(seen)
      invariant params == Params(seen) && key == LastKey(seen)
      decreases |reader.unread|
    {
      ghost var left := reader.unread;
      Direct.NextMessage(left);
      var msg := ReadMessageCapped(reader, MAX_MESSAGE_LEN, pace);
      if !msg.Got? || Tag(msg.value) == ERROR_RESPONSE {
        NoReport(input, seen, left);
        return false, params, key, seen;
      }
      var f := msg.value;
      Direct.ReadOneMore(input, seen, left);
      ReportSnoc(seen, f);
      if Tag(f) == PARAMETER_STATUS {
        params := params + [f];
      } else if Tag(f) == BACKEND_KEY_DATA {
        key := Some(Payload(f));
      }
      seen := seen + [f];
      if Tag(f) == READY_FOR_QUERY {
        assert seen[..|seen| - 1] + [f] == seen;
        assert Direct.Messages(input)[..|seen|] == seen;
        assert Reports(input, |seen|);
        return true, params, key, seen;
      }
    }
  }

  /** `PgConnector::serve`, on a dialled connection. */
  method Serve(c: Credentials, startup: seq<byte>, reader: Transport, conn: Sink, pace: nat -> nat)
    returns (ok: bool, params: seq<seq<byte>>, key: Option<seq<byte>>, ghost seen: seq<seq<byte>>)
    modifies reader, conn
    ensures var a := Authenticate(c, 0, old(conn.written) + startup, old(reader.unread));
      && conn.written == a.output
      && (ok <==> a.Authenticated? && exists n :: Reports(a.rest, n))
      && (ok ==> IsReport(seen) && Direct.ReadSoFar(a.rest, seen, reader.unread)
                 && params == Params(seen) && key == LastKey(seen))
  {
    params, key, seen := [], None, [];
    conn.Write(startup);
    ok := RunAuthentication(c, reader, conn, pace);
    if ok {
      ok, params, key, seen := Capture(reader, pace);
    }
  }

  // ---------------------------------------------------------------------------------------------
  // Against a SCRAM backend

  /** The exchange does not depend on what was written before it. */
  lemma ConverseAfter(cl: ScramClient.Client, sent: seq<byte>, sasl: seq<byte>, input: seq<byte>)
    requires |sasl| >= 5 && ScramClient.Converse(cl, [], sasl, input).ok
    ensures var o := ScramClient.Converse(cl, [], sasl, input);
      ScramClient.Converse(cl, sent, sasl, input) == o.(output := sent + o.output)
  {
    var p := ParseOne(input, MAX_MESSAGE_LEN);
    var first := ScramClient.FirstFrame(cl);
    var response := ScramMessages.SaslResponse(ScramClient.OnContinue(cl, p.frame).value.response);
    assert [] + first == first;
    Assoc(sent, first, response);
  }

  /** A SASL exchange that succeeds takes the phase one exchange further. */
  lemma SaslGoesOn(c: Credentials, i: nat, sent: seq<byte>, input: seq<byte>)
    requires c.password.Some? && ScramClient.ConverseFromStart(SaslClient(c, i), [], input).ok
    ensures var o := ScramClient.ConverseFromStart(SaslClient(c, i), [], input);
      Authenticate(c, i, sent, input) == Authenticate(c, i + 1, sent + o.output, o.rest)
  {
    var p := ParseOne(input, MAX_MESSAGE_LEN);
    ConverseAfter(SaslClient(c, i), sent, p.frame, p.rest);
  }

  /** A pooled connection to a SCRAM backend with the role's verifier authenticates, whatever the salt, iteration count and
      binding offer, sends the proxy's two messages, and is left at the first message after AuthenticationOk. */
  lemma ScramBackendAccepts(c: Credentials, srv: ScramServer.Server, salt: seq<byte>, iterations: ScramSecret.u32,
                            sent: seq<byte>, rest: seq<byte>)
    requires c.password.Some? && srv.h == c.h
    requires srv.stored == ScramServer.Known(ScramSecret.FromPassword(c.h, c.password.value, salt, iterations))
    requires 44 !in c.nonce(0) && 44 !in srv.nonce && ScramChain.Fits(srv, SaslClient(c, 0))
    ensures var cl := SaslClient(c, 0);
      var said := ScramChain.S1(srv) + ScramChain.S2(srv, cl) + ScramChain.S3(srv, cl);
      Authenticate(c, 0, sent, said + (ScramMessages.SaslMessage(AUTH_OK, []) + rest))
      == Authenticated(sent + (ScramChain.C1(cl) + ScramChain.C2(srv, cl)), rest)
  {
    var cl, ok := SaslClient(c, 0), ScramMessages.SaslMessage(AUTH_OK, []);
    var said := ScramChain.S1(srv) + ScramChain.S2(srv, cl) + ScramChain.S3(srv, cl);
    ScramChain.ClientRuns(srv, cl, ok + rest);
    SaslGoesOn(c, 0, sent, said + (ok + rest));
    ScramChain.AuthRead(AUTH_OK, []);
    ScramChain.FrameRead(AUTHENTICATION, PutI32(AUTH_OK) + [], rest, MAX_MESSAGE_LEN);
  }

  // ---------------------------------------------------------------------------------------------
  // Against other backends

  /** An authentication request with nothing after its sub-type, on the wire. */
  function Request(subtype: byte): seq<byte> {
    [82, 0, 0, 0, 8, 0, 0, 0, subtype]
  }

  lemma RequestRead(subtype: byte, rest: seq<byte>)
    ensures ParseOne(Request(subtype) + rest, MAX_MESSAGE_LEN) == Complete(Request(subtype), rest)
    ensures AuthSubtype(Request(subtype)) == subtype
  {
    var f := Request(subtype);
    assert f[1..5] == [0, 0, 0, 8] && Payload(f)[..4] == [0, 0, 0, subtype];
    ParseOneFrame(f, rest, MAX_MESSAGE_LEN);
  }

  /** A password message: one whole frame of tag `p` that reads as the C string `pw` and nothing after it. */
  predicate CarriesPassword(f: seq<byte>, pw: Str) {
    && ParseOne(f, MAX_MESSAGE_LEN) == Complete(f, []) && |f| >= 5 && f[0] == 112
    && Startup.CStr(f[5..]) == Some((pw, []))
  }

  lemma PasswordIsCarried(pw: Str)
    requires 0 !in pw && |pw| + 5 <= MAX_MESSAGE_LEN
    ensures CarriesPassword(Frame(PASSWORD_MESSAGE, pw + [0]), pw)
  {
    var f := Frame(PASSWORD_MESSAGE, pw + [0]);
    FrameRoundTrip(PASSWORD_MESSAGE, pw + [0], [], MAX_MESSAGE_LEN);
    assert f + [] == f;
    assert pw + [0] == pw + [0] + [];
    Startup.CStrRoundTrip(pw + [0], pw, []);
  }

  /** A backend that asks for the password in clear is sent it, once, and nothing else. */
  lemma CleartextBackendAccepts(c: Credentials, pw: Str, i: nat, sent: seq<byte>, rest: seq<byte>)
    requires c.password == Some(pw) && 0 !in pw && |pw| + 5 <= MAX_MESSAGE_LEN
    ensures var a := Authenticate(c, i, sent, Request(3) + (Request(0) + rest));
      a.Authenticated? && a.rest == rest && sent <= a.output && CarriesPassword(a.output[|sent|..], pw)
  {
    var f := Frame(PASSWORD_MESSAGE, pw + [0]);
    RequestRead(3, Request(0) + rest);
    RequestRead(0, rest);
    PasswordIsCarried(pw);
    assert (sent + f)[|sent|..] == f;
  }

  /** A backend that asks for nothing is sent nothing, with a password or without. */
  lemma TrustBackendAccepts(c: Credentials, i: nat, sent: seq<byte>, rest: seq<byte>)
    ensures Authenticate(c, i, sent, Request(0) + rest) == Authenticated(sent, rest)
  {
    RequestRead(0, rest);
  }

  /** What the pool goes on after: AuthenticationOk, and with a password a request for it or for SASL. */
  predicate GoesOn(c: Credentials, f: seq<byte>) {
    && |f| >= 9 && f[0] == 'R' as int
    && (f[5..9] == [0, 0, 0, 0] || (c.password.Some? && (f[5..9] == [0, 0, 0, 3] || f[5..9] == [0, 0, 0, 10])))
  }

  /** Anything else as the next message fails with nothing more sent: MD5, a truncated request, an error, any other tag, or no
      whole message. */
  lemma OtherBackendsFail(c: Credentials, i: nat, sent: seq<byte>, input: seq<byte>)
    requires var p := ParseOne(input, MAX_MESSAGE_LEN); p.Complete? ==> !GoesOn(c, p.frame)
    ensures Authenticate(c, i, sent, input) == Unauthenticated(sent)
  {
    var p := ParseOne(input, MAX_MESSAGE_LEN);
    if p.Complete? && |p.frame| >= 9 {
      SubtypeBytes(p.frame);
    }
  }

  lemma SubtypeBytes(f: Direct.Message)
    requires |f| >= 9
    ensures AuthSubtype(f) == 0 <==> f[5..9] == [0, 0, 0, 0]
    ensures AuthSubtype(f) == 3 <==> f[5..9] == [0, 0, 0, 3]
    ensures AuthSubtype(f) == 10 <==> f[5..9] == [0, 0, 0, 10]
  {
    assert Payload(f)[..4] == f[5..9];
    I32RoundTripBack(f[5..9]);
    assert PutI32(0) == [0, 0, 0, 0] && PutI32(3) == [0, 0, 0, 3] && PutI32(10) == [0, 0, 0, 10];
    assert ReadI32([0, 0, 0, 0]) == 0 && ReadI32([0, 0, 0, 3]) == 3 && ReadI32([0, 0, 0, 10]) == 10;
  }

  // ---------------------------------------------------------------------------------------------
  // The captured key and parameters

  /** The captured key is the last one reported. */
  lemma {:induction false} LastKeyExactly(frames: seq<seq<byte>>, i: nat)
    requires Direct.Framed(frames)
    ensures Direct.LastKeyAt(frames, i) ==> LastKey(frames) == Some(frames[i][5..])
    ensures Direct.NoKey(frames) ==> LastKey(frames) == None
    decreases |frames|
  {
    if frames != [] {
      LastKeyExactly(frames[..|frames| - 1], i);
      if i < |frames| - 1 {
        Direct.LastKeyBefore(frames, i);
      }
    }
  }
}
