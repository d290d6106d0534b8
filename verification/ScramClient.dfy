/** The proxy as a SCRAM client of the backend (src/scram/client.rs). */
module ScramClient {
  import opened Bytes
  import opened Text
  import opened Codec
  import opened ScramCrypto
  import opened ScramMessages
  import Base64
  import ScramServer
  import ScramSecret

  /** `derive` turns the server's salt and iteration count into keys: reused keys ignore them. */
  datatype Client = Client(h: Hash, nonce: Str, derive: (seq<byte>, ScramSecret.u32) -> ScramKeys)

  /** `reauth_upstream`'s keys, and `authenticate_password`'s. */
  function Reusing(keys: ScramKeys): (seq<byte>, ScramSecret.u32) -> ScramKeys {
    (_: seq<byte>, _: ScramSecret.u32) => keys
  }

  function Deriving(h: Hash, password: seq<byte>): (seq<byte>, ScramSecret.u32) -> ScramKeys {
    (salt: seq<byte>, iterations: ScramSecret.u32) => FromPassword(h, password, salt, iterations)
  }

  /** `n,,` */
  const GS2: seq<byte> := [N, COMMA, COMMA]

  function FirstBare(nonce: seq<byte>): seq<byte> {
    Attr(N, []) + [COMMA] + Attr(R, nonce)
  }

  function FirstFrame(cl: Client): seq<byte> {
    SaslInitialResponse(MECHANISM, GS2 + FirstBare(cl.nonce))
  }

  // ---------------------------------------------------------------------------------------------
  // The decisions

  predicate OffersScram(sasl: seq<byte>)
    requires |sasl| >= 5
  {
    IsAuth(sasl, AUTH_SASL) && MECHANISM in Mechanisms(Payload(sasl)[4..])
  }

  datatype Challenge = Challenge(nonce: seq<byte>, salt: seq<byte>, iterations: ScramSecret.u32)

  /** What a server-first-message says, if the client can go on with it. */
  function ReadChallenge(clientNonce: seq<byte>, serverFirst: seq<byte>): Option<Challenge> {
    ChallengeOf(clientNonce, FirstAttr(serverFirst, [R, EQ]), FirstAttr(serverFirst, [S, EQ]), FirstAttr(serverFirst, [I, EQ]))
  }

  function ChallengeOf(clientNonce: seq<byte>, r: Option<seq<byte>>, s: Option<seq<byte>>, i: Option<seq<byte>>):
    Option<Challenge>
  {
    if r.None? || s.None? || i.None? || !(clientNonce <= r.value) then None
    else
      var salt, iterations := Base64.Decode(s.value), ParseU32(i.value);
      if salt.None? || iterations.None? then None else Some(Challenge(r.value, salt.value, iterations.value))
  }

  function WithoutProof(nonce: seq<byte>): seq<byte> {
    Attr(C, Base64.Encode(GS2)) + [COMMA] + Attr(R, nonce)
  }

  /** The answer to a challenge, and what the rest of the exchange needs. */
  datatype Answer = Answer(keys: ScramKeys, authMessage: seq<byte>, response: seq<byte>)

  function AnswerTo(cl: Client, serverFirst: seq<byte>, ch: Challenge): Answer {
    var keys, withoutProof := cl.derive(ch.salt, ch.iterations), WithoutProof(ch.nonce);
    var authMessage := AuthMessage(FirstBare(cl.nonce), serverFirst, withoutProof);
    var proof := XorAll(keys.client, Hmac(cl.h, keys.stored, authMessage));
    Answer(keys, authMessage, withoutProof + COMMA_P + Base64.Encode(proof))
  }

  function OnContinue(cl: Client, frame: seq<byte>): Option<Answer>
    requires |frame| >= 5
  {
    if !IsAuth(frame, AUTH_SASL_CONTINUE) || !ValidUtf8(Payload(frame)[4..]) then None
    else
      var ch := ReadChallenge(cl.nonce, Payload(frame)[4..]);
      if ch.None? then None else Some(AnswerTo(cl, Payload(frame)[4..], ch.value))
  }

  /** The server proved that it holds the ServerKey too. */
  predicate OnOutcome(cl: Client, answer: Answer, frame: seq<byte>)
    requires |frame| >= 5
  {
    && IsAuth(frame, AUTH_SASL_FINAL) && ValidUtf8(Payload(frame)[4..])
    && FirstAttr(Payload(frame)[4..], [V, EQ]) == Some(Base64.Encode(Hmac(cl.h, answer.keys.server, answer.authMessage)))
  }

  // ---------------------------------------------------------------------------------------------
  // The whole exchange

  datatype Outcome = Outcome(ok: bool, output: seq<byte>, rest: seq<byte>)

  /** `run_scram`, as a function of the AuthenticationSASL already read and everything the backend sends after it. */
  function Converse(cl: Client, sent: seq<byte>, sasl: seq<byte>, input: seq<byte>): Outcome
    requires |sasl| >= 5
  {
    if !OffersScram(sasl) then Outcome(false, sent, input) else FromChallenge(cl, sent + FirstFrame(cl), input)
  }

  /** From the server-first-message on. */
  function FromChallenge(cl: Client, sent: seq<byte>, input: seq<byte>): Outcome {
    var p := ParseOne(input, MAX_MESSAGE_LEN);
    if !p.Complete? then Outcome(false, sent, AfterFailedRead(p))
    else
      var answer := OnContinue(cl, p.frame);
      if answer.None? then Outcome(false, sent, p.rest)
      else FromSignature(cl, answer.value, sent + SaslResponse(answer.value.response), p.rest)
  }

  /** On the server's final message. */
  function FromSignature(cl: Client, answer: Answer, sent: seq<byte>, input: seq<byte>): Outcome {
    var p := ParseOne(input, MAX_MESSAGE_LEN);
    if !p.Complete? then Outcome(false, sent, AfterFailedRead(p)) else Outcome(OnOutcome(cl, answer, p.frame), sent, p.rest)
  }

  /** The same with the AuthenticationSASL still to be read. */
  function ConverseFromStart(cl: Client, sent: seq<byte>, input: seq<byte>): Outcome {
    var p := ParseOne(input, MAX_MESSAGE_LEN);
    if !p.Complete? then Outcome(false, sent, AfterFailedRead(p))
    else Converse(cl, sent, p.frame, p.rest)
  }

  // ---------------------------------------------------------------------------------------------
  // The program

  /** `run_scram`, from the server-first-message to the proof. */
  method AnswerChallenge(cl: Client, reader: Transport, backend: Sink, pace: nat -> nat) returns (answer: Option<Answer>)
    modifies reader, backend
    ensures var p := ParseOne(old(reader.unread), MAX_MESSAGE_LEN);
      && answer == (if p.Complete? then OnContinue(cl, p.frame) else None)
      && reader.unread == (if p.Complete? then p.rest else AfterFailedRead(p))
      && backend.written == old(backend.written) + if answer.Some? then SaslResponse(answer.value.response) else []
  {
    var cont := ReadMessageCapped(reader, MAX_MESSAGE_LEN, pace);
    if !cont.Got? || !IsAuth(cont.value, AUTH_SASL_CONTINUE) || !ValidUtf8(Payload(cont.value)[4..]) {
      return None;
    }
    var serverFirst := Payload(cont.value)[4..];
    var challenge := ReadChallenge(cl.nonce, serverFirst);
    if challenge.None? {
      return None;
    }
    var keys := cl.derive(challenge.value.salt, challenge.value.iterations);
    var withoutProof := WithoutProof(challenge.value.nonce);
    var authMessage := AuthMessage(FirstBare(cl.nonce), serverFirst, withoutProof);
    var signature := HmacSha256(cl.h, keys.stored, authMessage);
    var proof := ScramServer.RecoverClientKey(keys.client, signature);
    answer := Some(Answer(keys, authMessage, withoutProof + COMMA_P + Base64.Encode(proof)));
    backend.Write(SaslResponse(answer.value.response));
  }

  /** `run_scram`, on the server's final message. */
  method CheckServer(cl: Client, answer: Answer, frame: seq<byte>) returns (ok: bool)
    requires |frame| >= 5
    ensures ok == OnOutcome(cl, answer, frame)
  {
    if !IsAuth(frame, AUTH_SASL_FINAL) || !ValidUtf8(Payload(frame)[4..]) {
      return false;
    }
    var serverSignature := FirstAttr(Payload(frame)[4..], [V, EQ]);
    if serverSignature.None? {
      return false;
    }
    var expected := HmacSha256(cl.h, answer.keys.server, answer.authMessage);
    Base64.Base64RoundTrip(serverSignature.value, expected);
    ok := Base64.Decode(serverSignature.value) == Some(expected);
  }

  method AwaitSignature(cl: Client, answer: Answer, reader: Transport, ghost sent: seq<byte>, pace: nat -> nat)
    returns (ok: bool)
    modifies reader
    ensures Outcome(ok, sent, reader.unread) == FromSignature(cl, answer, sent, old(reader.unread))
  {
    var final := ReadMessageCapped(reader, MAX_MESSAGE_LEN, pace);
    if !final.Got? {
      return false;
    }
    ok := CheckServer(cl, answer, final.value);
  }

  method AwaitChallenge(cl: Client, reader: Transport, backend: Sink, pace: nat -> nat) returns (ok: bool)
    modifies reader, backend
    ensures Outcome(ok, backend.written, reader.unread) == FromChallenge(cl, old(backend.written), old(reader.unread))
  {
    ghost var before := backend.written;
    var answer := AnswerChallenge(cl, reader, backend, pace);
    if answer.None? {
      assert before + [] == before;
      return false;
    }
    ok := AwaitSignature(cl, answer.value, reader, backend.written, pace);
  }

  /** `run_scram` */
  method RunScram(cl: Client, sasl: seq<byte>, reader: Transport, backend: Sink, pace: nat -> nat) returns (ok: bool)
    requires |sasl| >= 5
    modifies reader, backend
    ensures Outcome(ok, backend.written, reader.unread)
            == Converse(cl, old(backend.written), sasl, old(reader.unread))
  {
    if !IsAuth(sasl, AUTH_SASL) {
      return false;
    }
    var mechanisms := ParseMechanisms(Payload(sasl)[4..]);
    if MECHANISM !in mechanisms {
      return false;
    }
    backend.Write(FirstFrame(cl));
    ok := AwaitChallenge(cl, reader, backend, pace);
  }

  /** `reauth_upstream` */
  method ReauthUpstream(h: Hash, nonce: Str, keys: ScramKeys, reader: Transport, backend: Sink, pace: nat -> nat)
    returns (ok: bool)
    modifies reader, backend
    ensures Outcome(ok, backend.written, reader.unread)
            == ConverseFromStart(Client(h, nonce, Reusing(keys)), old(backend.written), old(reader.unread))
  {
    var sasl := ReadMessageCapped(reader, MAX_MESSAGE_LEN, pace);
    if !sasl.Got? {
      return false;
    }
    ok := RunScram(Client(h, nonce, Reusing(keys)), sasl.value, reader, backend, pace);
  }

  /** `authenticate_password` */
  method AuthenticatePassword(h: Hash, nonce: Str, password: seq<byte>, sasl: seq<byte>, reader: Transport,
                              backend: Sink, pace: nat -> nat) returns (ok: bool)
    requires |sasl| >= 5
    modifies reader, backend
    ensures Outcome(ok, backend.written, reader.unread)
            == Converse(Client(h, nonce, Deriving(h, password)), old(backend.written), sasl, old(reader.unread))
  {
    ok := RunScram(Client(h, nonce, Deriving(h, password)), sasl, reader, backend, pace);
  }

  // ---------------------------------------------------------------------------------------------
  // When the client is satisfied

  /** A server-first-message that extends the client's nonce, with a salt and an iteration count. */
  predicate Challenges(nonce: seq<byte>, serverFirst: seq<byte>, ch: Challenge) {
    && ValidUtf8(serverFirst) && nonce <= ch.nonce
    && FirstAttr(serverFirst, [R, EQ]) == Some(ch.nonce)
    && FirstAttr(serverFirst, [S, EQ]) == Some(Base64.Encode(ch.salt))
    && FirstAttr(serverFirst, [I, EQ]).Some? && ParseU32(FirstAttr(serverFirst, [I, EQ]).value) == Some(ch.iterations)
  }

  /** The server's signature of the whole exchange under the keys the challenge leads to. */
  ghost predicate Signs(cl: Client, serverFirst: seq<byte>, serverFinal: seq<byte>, ch: Challenge) {
    var authMessage := AuthMessage(FirstBare(cl.nonce), serverFirst, WithoutProof(ch.nonce));
    && ValidUtf8(serverFinal)
    && FirstAttr(serverFinal, [V, EQ]) == Some(Base64.Encode(Hmac(cl.h, cl.derive(ch.salt, ch.iterations).server, authMessage)))
  }

  /** The backend's next two messages are a challenge to this client and the signature that answers it. */
  ghost predicate ServerProves(cl: Client, input: seq<byte>) {
    var p := ParseOne(input, MAX_MESSAGE_LEN);
    if !p.Complete? then false
    else
      var q := ParseOne(p.rest, MAX_MESSAGE_LEN);
      && q.Complete? && IsAuth(p.frame, AUTH_SASL_CONTINUE) && IsAuth(q.frame, AUTH_SASL_FINAL)
      && exists ch :: Challenges(cl.nonce, Payload(p.frame)[4..], ch)
                      && Signs(cl, Payload(p.frame)[4..], Payload(q.frame)[4..], ch)
  }

  lemma ChallengesExactly(nonce: seq<byte>, serverFirst: seq<byte>, ch: Challenge)
    ensures ValidUtf8(serverFirst) && ReadChallenge(nonce, serverFirst) == Some(ch) <==> Challenges(nonce, serverFirst, ch)
  {
    var s := FirstAttr(serverFirst, [S, EQ]);
    if s.Some? {
      Base64.Base64RoundTrip(s.value, ch.salt);
    }
  }

  /** The client succeeds if and only if SCRAM-SHA-256 is offered, the server-first-message extends the client's nonce and
      carries a salt and a number, and the server signs the exchange with the ServerKey the client knows. */
  lemma SatisfiedExactly(cl: Client, sent: seq<byte>, sasl: seq<byte>, input: seq<byte>)
    requires |sasl| >= 5
    ensures Converse(cl, sent, sasl, input).ok <==> OffersScram(sasl) && ServerProves(cl, input)
  {
    var p := ParseOne(input, MAX_MESSAGE_LEN);
    if p.Complete? && |Payload(p.frame)| >= 4 {
      var serverFirst := Payload(p.frame)[4..];
      forall ch {
        ChallengesExactly(cl.nonce, serverFirst, ch);
      }
    }
  }
}
