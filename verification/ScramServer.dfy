/** The SCRAM server of the proxy (src/scram/mod.rs): it authenticates a client against a stored verifier and comes away
    with the client's keys. */
module ScramServer {
  import opened Bytes
  import opened Text
  import opened Codec
  import opened ScramCrypto
  import opened ScramMessages
  import BackendMessages
  import Base64
  import ScramSecret

  /** What the store answered. */
  datatype Stored = Known(secret: ScramSecret.Secret) | Unknown | Unavailable

  /** One authentication: the lookup result, the mock verifier for an unknown user, the certificate's binding data, and
      the server nonce drawn for it. */
  datatype Server = Server(h: Hash, stored: Stored, mock: ScramSecret.Secret, binding: Option<seq<byte>>, nonce: Str)

  /** A denial is answered with a fatal error; other failures just end the exchange. */
  datatype Verdict = Accepted(keys: ScramKeys) | Denied | Errored

  function Verifier(srv: Server): ScramSecret.Secret {
    if srv.stored.Known? then srv.stored.secret else srv.mock
  }

  function Offered(srv: Server): seq<seq<byte>> {
    if srv.binding.Some? then [MECHANISM_PLUS, MECHANISM] else [MECHANISM]
  }

  /** `fatal_error("28P01", "password authentication failed")` */
  function DenyFrame(): seq<byte> {
    BackendMessages.ErrorResponse(Ascii("FATAL"), Ascii("28P01"), Ascii("password authentication failed"))
  }

  // ---------------------------------------------------------------------------------------------
  // The two decisions

  datatype Opening = Refused(denied: bool) | Proceed(first: ClientFirst, expected: seq<byte>)

  /** The expected `c=` for a flag and mechanism, if they agree; the arms are tried in the code's order. */
  function ExpectedBinding(srv: Server, plus: bool, first: ClientFirst): Option<seq<byte>> {
    if first.flag.Binding? && plus then
      if first.flag.name != CB_TYPE then None
      else Some(first.gs2Header + if srv.binding.Some? then srv.binding.value else [])
    else if first.flag.Binding? then None
    else if first.flag.Supports? && srv.binding.Some? then None
    else if !plus then Some(first.gs2Header)
    else None
  }

  /** On the SASLInitialResponse. */
  function OnInitial(srv: Server, frame: seq<byte>): Opening
    requires |frame| >= 5
  {
    var initial := ParseSaslInitial(Payload(frame));
    if Tag(frame) != PASSWORD_MESSAGE || initial.None? then Refused(false)
    else
      var (mechanism, response) := initial.value;
      if mechanism != MECHANISM && !(mechanism == MECHANISM_PLUS && srv.binding.Some?) then Refused(true)
      else
        var first := ParseClientFirst(response);
        if first.None? then Refused(false)
        else
          var expected := ExpectedBinding(srv, mechanism == MECHANISM_PLUS, first.value);
          if expected.None? then Refused(true) else Proceed(first.value, expected.value)
  }

  function ServerFirstFor(srv: Server, first: ClientFirst): seq<byte> {
    ServerFirst(first.nonce + srv.nonce, Verifier(srv).salt, Verifier(srv).iterations)
  }

  function Transcript(srv: Server, first: ClientFirst, f: ClientFinal): seq<byte> {
    AuthMessage(first.bare, ServerFirstFor(srv, first), f.withoutProof)
  }

  /** On the client-final-message. */
  function OnFinal(srv: Server, first: ClientFirst, expected: seq<byte>, frame: seq<byte>): Verdict
    requires |frame| >= 5
  {
    if Tag(frame) != PASSWORD_MESSAGE || !ValidUtf8(Payload(frame)) then Errored
    else
      var final := FinalOf(Payload(frame));
      if final.None? then Errored
      else
        var f := final.value;
        if f.nonce != first.nonce + srv.nonce then Denied
        else if Base64.Decode(f.channelBinding).None? then Errored
        else if Base64.Decode(f.channelBinding).value != expected then Denied
        else
          var proof := Base64.Decode(f.proof);
          if proof.None? then Errored
          else if |proof.value| != 32 then Denied
          else
            var secret := Verifier(srv);
            var key := XorAll(proof.value, Hmac(srv.h, secret.storedKey, Transcript(srv, first, f)));
            if !srv.stored.Known? || srv.h(key) != secret.storedKey then Denied
            else Accepted(ScramKeys(key, secret.storedKey, secret.serverKey))
  }

  function FinalMessage(srv: Server, authMessage: seq<byte>): seq<byte> {
    Attr(V, Base64.Encode(Hmac(srv.h, Verifier(srv).serverKey, authMessage)))
  }

  // ---------------------------------------------------------------------------------------------
  // The whole exchange

  /** What is decided, what is written, and what of the client's bytes is left unread. */
  datatype Exchange = Exchange(verdict: Verdict, output: seq<byte>, rest: seq<byte>)

  /** The exchange as a function of everything the client sends, and of what had been written before it. */
  function Serve(srv: Server, sent: seq<byte>, input: seq<byte>): Exchange {
    var offer := sent + AuthenticationSasl(Offered(srv));
    var p := ParseOne(input, MAX_AUTH_MESSAGE_LEN);
    if srv.stored.Unavailable? then Exchange(Errored, sent, input)
    else if !p.Complete? then Exchange(Errored, offer, AfterFailedRead(p))
    else
      var opening := OnInitial(srv, p.frame);
      if opening.Refused? then Exchange(if opening.denied then Denied else Errored,
                                        offer + if opening.denied then DenyFrame() else [], p.rest)
      else Finish(srv, opening.first, opening.expected, offer, p.rest)
  }

  function Finish(srv: Server, first: ClientFirst, expected: seq<byte>, sent: seq<byte>, input: seq<byte>): Exchange {
    var output := sent + SaslMessage(AUTH_SASL_CONTINUE, ServerFirstFor(srv, first));
    var p := ParseOne(input, MAX_AUTH_MESSAGE_LEN);
    if !p.Complete? then Exchange(Errored, output, AfterFailedRead(p))
    else
      var verdict := OnFinal(srv, first, expected, p.frame);
      match verdict
      case Errored => Exchange(Errored, output, p.rest)
      case Denied => Exchange(Denied, output + DenyFrame(), p.rest)
      case Accepted(keys) =>
        var message := FinalMessage(srv, Transcript(srv, first, FinalOf(Payload(p.frame)).value));
        Exchange(verdict, output + SaslMessage(AUTH_SASL_FINAL, message), p.rest)
  }

  // ---------------------------------------------------------------------------------------------
  // The program

  /** `deny` */
  method Deny(client: Sink) returns (verdict: Verdict)
    modifies client
    ensures verdict == Denied && client.written == old(client.written) + DenyFrame()
  {
    client.Write(DenyFrame());
    return Denied;
  }

  method ToArray(s: seq<byte>) returns (a: array<byte>)
    ensures fresh(a) && a[..] == s
  {
    a := new byte[|s|](i requires 0 <= i < |s| => s[i]);
  }

  /** `authenticate`, up to the challenge. */
  method ReadInitial(srv: Server, reader: Transport, client: Sink, pace: nat -> nat)
    returns (refused: Option<Verdict>, first: Option<ClientFirst>, expected: seq<byte>)
    modifies reader, client
    ensures var p := ParseOne(old(reader.unread), MAX_AUTH_MESSAGE_LEN);
      if !p.Complete? then
        refused == Some(Errored) && reader.unread == AfterFailedRead(p) && client.written == old(client.written)
      else
        && reader.unread == p.rest
        && match OnInitial(srv, p.frame)
           case Refused(denied) =>
             && refused == Some(if denied then Denied else Errored)
             && client.written == old(client.written) + (if denied then DenyFrame() else [])
           case Proceed(cf, cb) =>
             refused == None && first == Some(cf) && expected == cb && client.written == old(client.written)
  {
    first, expected := None, [];
    var initial := ReadMessageCapped(reader, MAX_AUTH_MESSAGE_LEN, pace);
    if !initial.Got? {
      return Some(Errored), first, expected;
    }
    var frame := initial.value;
    if Tag(frame) != PASSWORD_MESSAGE {
      return Some(Errored), first, expected;
    }
    var parsed := ParseSaslInitial(Payload(frame));
    if parsed.None? {
      return Some(Errored), first, expected;
    }
    var (mechanism, response) := parsed.value;
    var plus: bool;
    if mechanism == MECHANISM {
      plus := false;
      assert mechanism != MECHANISM_PLUS by { assert |mechanism| == 13 && |MECHANISM_PLUS| == 18; }
    } else if mechanism == MECHANISM_PLUS && srv.binding.Some? {
      plus := true;
    } else {
      var denied := Deny(client);
      return Some(denied), first, expected;
    }
    var clientFirst := ParseClientFirst(response);
    if clientFirst.None? {
      return Some(Errored), first, expected;
    }
    var binding := ExpectedBinding(srv, plus, clientFirst.value);
    if binding.None? {
      var denied := Deny(client);
      return Some(denied), first, expected;
    }
    return None, clientFirst, binding.value;
  }

  /** `authenticate`, on the client-final-message; denials are yet to be sent. */
  method CheckFinal(srv: Server, first: ClientFirst, expected: seq<byte>, frame: seq<byte>)
    returns (verdict: Verdict, finalMessage: seq<byte>)
    requires |frame| >= 5
    ensures verdict == OnFinal(srv, first, expected, frame)
    ensures verdict.Accepted? ==>
              finalMessage == FinalMessage(srv, Transcript(srv, first, FinalOf(Payload(frame)).value))
  {
    finalMessage := [];
    if Tag(frame) != PASSWORD_MESSAGE || !ValidUtf8(Payload(frame)) {
      return Errored, finalMessage;
    }
    var final := ParseClientFinal(Payload(frame));
    if final.None? {
      return Errored, finalMessage;
    }
    var f := final.value;
    if f.nonce != first.nonce + srv.nonce {
      return Denied, finalMessage;
    }
    var channelBinding := Base64.Decode(f.channelBinding);
    if channelBinding.None? {
      return Errored, finalMessage;
    }
    if channelBinding.value != expected {
      return Denied, finalMessage;
    }
    var secret := Verifier(srv);
    var authMessage := first.bare + [COMMA] + ServerFirstFor(srv, first) + [COMMA] + f.withoutProof;
    var signature := HmacSha256(srv.h, secret.storedKey, authMessage);
    var proof := Base64.Decode(f.proof);
    if proof.None? {
      return Errored, finalMessage;
    }
    if |proof.value| != 32 {
      return Denied, finalMessage;
    }
    var key := RecoverClientKey(proof.value, signature);
    if !srv.stored.Known? || srv.h(key) != secret.storedKey {
      return Denied, finalMessage;
    }
    var serverSignature := HmacSha256(srv.h, secret.serverKey, authMessage);
    finalMessage := Attr(V, Base64.Encode(serverSignature));
    verdict := Accepted(ScramKeys(key, secret.storedKey, secret.serverKey));
  }

  /** `recover_client_key` */
  method RecoverClientKey(proof: seq<byte>, signature: Digest) returns (key: Digest)
    requires |proof| == 32
    ensures key == XorAll(proof, signature)
  {
    var a := ToArray(proof);
    var b := ToArray(signature);
    var r := XorKeys(a, b);
    key := r[..];
  }

  /** `authenticate`, from the challenge on. */
  method Conclude(srv: Server, first: ClientFirst, expected: seq<byte>, reader: Transport, client: Sink, pace: nat -> nat)
    returns (verdict: Verdict)
    modifies reader, client
    ensures Exchange(verdict, client.written, reader.unread)
            == Finish(srv, first, expected, old(client.written), old(reader.unread))
  {
    var secret := Verifier(srv);
    var serverFirst := ServerFirst(first.nonce + srv.nonce, secret.salt, secret.iterations);
    client.Write(SaslMessage(AUTH_SASL_CONTINUE, serverFirst));
    var response := ReadMessageCapped(reader, MAX_AUTH_MESSAGE_LEN, pace);
    if !response.Got? {
      return Errored;
    }
    var finalMessage: seq<byte>;
    verdict, finalMessage := CheckFinal(srv, first, expected, response.value);
    if verdict.Denied? {
      verdict := Deny(client);
    } else if verdict.Accepted? {
      client.Write(SaslMessage(AUTH_SASL_FINAL, finalMessage));
    }
  }

  /** `authenticate` */
  method Authenticate(srv: Server, reader: Transport, client: Sink, pace: nat -> nat) returns (verdict: Verdict)
    modifies reader, client
    ensures Exchange(verdict, client.written, reader.unread) == Serve(srv, old(client.written), old(reader.unread))
  {
    if srv.stored.Unavailable? {
      return Errored;
    }
    var offer := BuildAuthenticationSasl(Offered(srv));
    client.Write(offer);
    var refused, first, expected := ReadInitial(srv, reader, client, pace);
    if refused.Some? {
      return refused.value;
    }
    verdict := Conclude(srv, first.value, expected, reader, client, pace);
  }

  // ---------------------------------------------------------------------------------------------
  // Acceptance

  /** The binding cases of section 6 of RFC 5802: -PLUS, bound to the offered type and data; or no binding on
      either side; or a client that could bind to a server that did not offer to. */
  predicate Binds(srv: Server, mechanism: seq<byte>, first: ClientFirst, c: seq<byte>) {
    || (mechanism == MECHANISM_PLUS && srv.binding.Some? && first.flag == Binding(CB_TYPE)
        && c == first.gs2Header + srv.binding.value)
    || (mechanism == MECHANISM && first.flag == Unbound && c == first.gs2Header)
    || (mechanism == MECHANISM && first.flag == Supports && srv.binding.None? && c == first.gs2Header)
  }

  /** A proof of possession of `key`: the full nonce echoed, the channel bound, and the key under the signature. */
  ghost predicate ProvesKey(srv: Server, mechanism: seq<byte>, first: ClientFirst, f: ClientFinal, key: Digest) {
    && f.nonce == first.nonce + srv.nonce
    && (exists c :: Binds(srv, mechanism, first, c) && f.channelBinding == Base64.Encode(c))
    && f.proof == Base64.Encode(XorAll(key, Hmac(srv.h, Verifier(srv).storedKey, Transcript(srv, first, f))))
  }

  /** The same of the two messages it was sent in. */
  ghost predicate Proves(srv: Server, initial: seq<byte>, final: seq<byte>, key: Digest) {
    var i, f := ParseSaslInitial(initial), FinalOf(final);
    && i.Some? && f.Some? && ValidUtf8(final) && ParseClientFirst(i.value.1).Some?
    && ProvesKey(srv, i.value.0, ParseClientFirst(i.value.1).value, f.value, key)
  }

  /** The client's first two messages are such a proof. */
  ghost predicate SendsProof(srv: Server, input: seq<byte>, key: Digest) {
    var p := ParseOne(input, MAX_AUTH_MESSAGE_LEN);
    if !p.Complete? then false
    else
      var q := ParseOne(p.rest, MAX_AUTH_MESSAGE_LEN);
      && q.Complete? && Tag(p.frame) == Tag(q.frame) == PASSWORD_MESSAGE
      && Proves(srv, Payload(p.frame), Payload(q.frame), key)
  }

  /** Acceptance, exactly: a known user, two SASL messages that echo the full nonce, bind the channel in one of the
      three ways, and carry the proof of a key that hashes to the StoredKey; and that key is what the server
      comes away with. */
  lemma AcceptedExactly(srv: Server, sent: seq<byte>, input: seq<byte>, keys: ScramKeys)
    ensures Serve(srv, sent, input).verdict == Accepted(keys) <==>
              && srv.stored.Known? && SendsProof(srv, input, keys.client)
              && keys.stored == srv.h(keys.client) == srv.stored.secret.storedKey
              && keys.server == srv.stored.secret.serverKey
  {
    var p := ParseOne(input, MAX_AUTH_MESSAGE_LEN);
    VerdictIs(srv, sent, input, keys);
    if p.Complete? && !srv.stored.Unavailable? {
      var q := ParseOne(p.rest, MAX_AUTH_MESSAGE_LEN);
      if q.Complete? {
        AcceptedMessages(srv, p.frame, q.frame, keys);
      }
    }
  }

  /** The verdict comes from the two decisions on the first two messages. */
  lemma VerdictIs(srv: Server, sent: seq<byte>, input: seq<byte>, keys: ScramKeys)
    ensures var p := ParseOne(input, MAX_AUTH_MESSAGE_LEN);
      Serve(srv, sent, input).verdict == Accepted(keys) <==>
        !srv.stored.Unavailable? && p.Complete? && DecidesFor(srv, p.frame, ParseOne(p.rest, MAX_AUTH_MESSAGE_LEN), keys)
  {
    var p := ParseOne(input, MAX_AUTH_MESSAGE_LEN);
    if p.Complete? && OnInitial(srv, p.frame).Proceed? {
      var o := OnInitial(srv, p.frame);
      FinishIs(srv, o.first, o.expected, sent + AuthenticationSasl(Offered(srv)), p.rest, keys);
    }
  }

  lemma FinishIs(srv: Server, first: ClientFirst, expected: seq<byte>, sent: seq<byte>, input: seq<byte>, keys: ScramKeys)
    ensures var q := ParseOne(input, MAX_AUTH_MESSAGE_LEN);
      Finish(srv, first, expected, sent, input).verdict == Accepted(keys)
      <==> q.Complete? && OnFinal(srv, first, expected, q.frame) == Accepted(keys)
  {
  }

  predicate DecidesFor(srv: Server, initial: seq<byte>, next: Parsed, keys: ScramKeys)
    requires |initial| >= 5 && (next.Complete? ==> |next.frame| >= 5)
  {
    var o := OnInitial(srv, initial);
    o.Proceed? && next.Complete? && OnFinal(srv, o.first, o.expected, next.frame) == Accepted(keys)
  }

  /** The same, for the two messages. */
  lemma AcceptedMessages(srv: Server, p: seq<byte>, q: seq<byte>, keys: ScramKeys)
    requires |p| >= 5 && |q| >= 5
    ensures (var o := OnInitial(srv, p); o.Proceed? && OnFinal(srv, o.first, o.expected, q) == Accepted(keys)) <==>
              && srv.stored.Known?
              && Tag(p) == Tag(q) == PASSWORD_MESSAGE && Proves(srv, Payload(p), Payload(q), keys.client)
              && keys.stored == srv.h(keys.client) == srv.stored.secret.storedKey
              && keys.server == srv.stored.secret.serverKey
  {
    var initial := ParseSaslInitial(Payload(p));
    if initial.Some? && ParseClientFirst(initial.value.1).Some? {
      var first := ParseClientFirst(initial.value.1).value;
      BindsExactly(srv, initial.value.0, first);
      var expected := ExpectedBinding(srv, initial.value.0 == MECHANISM_PLUS, first);
      if expected.Some? {
        AcceptedFinal(srv, first, expected.value, q, keys);
      }
    }
  }

  lemma AcceptedFinal(srv: Server, first: ClientFirst, expected: seq<byte>, q: seq<byte>, keys: ScramKeys)
    requires |q| >= 5
    ensures OnFinal(srv, first, expected, q) == Accepted(keys) <==>
              && srv.stored.Known? && Tag(q) == PASSWORD_MESSAGE && ValidUtf8(Payload(q)) && FinalOf(Payload(q)).Some?
              && (var f := FinalOf(Payload(q)).value;
                  && f.nonce == first.nonce + srv.nonce && f.channelBinding == Base64.Encode(expected)
                  && f.proof == Base64.Encode(XorAll(keys.client,
                                                     Hmac(srv.h, Verifier(srv).storedKey, Transcript(srv, first, f)))))
              && keys.stored == srv.h(keys.client) == srv.stored.secret.storedKey
              && keys.server == srv.stored.secret.serverKey
  {
    var final := FinalOf(Payload(q));
    if final.Some? {
      var f := final.value;
      Base64.Base64RoundTrip(f.channelBinding, expected);
      if Base64.Decode(f.channelBinding).Some? {
        Base64.Base64RoundTrip(f.channelBinding, Base64.Decode(f.channelBinding).value);
      }
      ProofExactly(f.proof, Hmac(srv.h, Verifier(srv).storedKey, Transcript(srv, first, f)), keys.client);
    }
  }

  /** The code's arms accept exactly the three binding cases. */
  lemma BindsExactly(srv: Server, mechanism: seq<byte>, first: ClientFirst)
    ensures forall c :: Binds(srv, mechanism, first, c) <==>
                          (mechanism == MECHANISM || (mechanism == MECHANISM_PLUS && srv.binding.Some?))
                          && ExpectedBinding(srv, mechanism == MECHANISM_PLUS, first) == Some(c)
  {
    assert |MECHANISM| == 13 && |MECHANISM_PLUS| == 18;
  }

  lemma ProofExactly(proof: seq<byte>, signature: Digest, key: Digest)
    ensures (var b := Base64.Decode(proof); b.Some? && |b.value| == 32 && XorAll(b.value, signature) == key)
            <==> proof == Base64.Encode(XorAll(key, signature))
  {
    Base64.Base64RoundTrip(proof, XorAll(key, signature));
    if Base64.Decode(proof).Some? && |Base64.Decode(proof).value| == 32 {
      XorAllCancels(Base64.Decode(proof).value, signature, key);
      Base64.Base64RoundTrip(proof, Base64.Decode(proof).value);
    }
  }

  // ---------------------------------------------------------------------------------------------
  // Denial

  /** A whole SASLInitialResponse names `mechanism` and carries `first`. */
  predicate Opens(initial: seq<byte>, mechanism: seq<byte>, first: ClientFirst)
    requires |initial| >= 5
  {
    var i := ParseSaslInitial(Payload(initial));
    Tag(initial) == PASSWORD_MESSAGE && i.Some? && i.value.0 == mechanism && ParseClientFirst(i.value.1) == Some(first)
  }

  /** It asks for a mechanism that was not offered, or binds in none of the three ways. */
  ghost predicate DeniesInitial(srv: Server, initial: seq<byte>)
    requires |initial| >= 5
  {
    var i := ParseSaslInitial(Payload(initial));
    && Tag(initial) == PASSWORD_MESSAGE && i.Some?
    && (i.value.0 !in Offered(srv)
        || exists first :: Opens(initial, i.value.0, first) && forall c :: !Binds(srv, i.value.0, first, c))
  }

  /** A known user's key that hashes to the StoredKey is under the proof. */
  ghost predicate ProvesStoredKey(srv: Server, first: ClientFirst, f: ClientFinal) {
    srv.stored.Known? && exists key: Digest ::
      && srv.h(key) == srv.stored.secret.storedKey
      && f.proof == Base64.Encode(XorAll(key, Hmac(srv.h, srv.stored.secret.storedKey, Transcript(srv, first, f))))
  }

  predicate IsBase64(s: seq<byte>) {
    Base64.Decode(s).Some?
  }

  /** A client-final-message with the wrong nonce; with a binding that can be read and is not one of the three; or with such
      a binding and a proof that can be read and proves nothing. */
  ghost predicate DeniesFinal(srv: Server, mechanism: seq<byte>, first: ClientFirst, final: seq<byte>)
    requires |final| >= 5
  {
    var f := FinalOf(Payload(final));
    Tag(final) == PASSWORD_MESSAGE && ValidUtf8(Payload(final)) && f.Some? && DeniesFields(srv, mechanism, first, f.value)
  }

  ghost predicate DeniesFields(srv: Server, mechanism: seq<byte>, first: ClientFirst, f: ClientFinal) {
    || f.nonce != first.nonce + srv.nonce
    || EncodesOther(srv, mechanism, first, f.channelBinding)
    || (IsEncoding(f.channelBinding) && IsEncoding(f.proof) && !ProvesStoredKey(srv, first, f))
  }

  ghost predicate IsEncoding(s: seq<byte>) {
    exists b :: s == Base64.Encode(b)
  }

  ghost predicate EncodesOther(srv: Server, mechanism: seq<byte>, first: ClientFirst, s: seq<byte>) {
    exists c :: s == Base64.Encode(c) && !Binds(srv, mechanism, first, c)
  }

  /** The client's first message is denied, or goes through and its second is. */
  ghost predicate IsDenied(srv: Server, input: seq<byte>) {
    var p := ParseOne(input, MAX_AUTH_MESSAGE_LEN);
    && p.Complete?
    && (|| DeniesInitial(srv, p.frame)
        || (var q := ParseOne(p.rest, MAX_AUTH_MESSAGE_LEN); q.Complete? && DeniesSecond(srv, p.frame, q.frame)))
  }

  /** At most one binding will do. */
  lemma BindingIsUnique(srv: Server, mechanism: seq<byte>, first: ClientFirst, c: seq<byte>)
    requires Binds(srv, mechanism, first, c)
    ensures forall d :: Binds(srv, mechanism, first, d) <==> d == c
  {
    BindsExactly(srv, mechanism, first);
  }

  lemma IsBase64Exactly(s: seq<byte>)
    ensures IsBase64(s) <==> IsEncoding(s)
  {
    if IsBase64(s) {
      Base64.Base64RoundTrip(s, Base64.Decode(s).value);
    }
    forall b | s == Base64.Encode(b)
      ensures IsBase64(s)
    {
      Base64.Base64RoundTrip(s, b);
    }
  }

  lemma OtherBinding(srv: Server, mechanism: seq<byte>, first: ClientFirst, c: seq<byte>, s: seq<byte>)
    requires Binds(srv, mechanism, first, c)
    ensures EncodesOther(srv, mechanism, first, s) <==> IsBase64(s) && Base64.Decode(s) != Some(c)
  {
    BindingIsUnique(srv, mechanism, first, c);
    if IsBase64(s) {
      Base64.Base64RoundTrip(s, Base64.Decode(s).value);
    }
    forall d | s == Base64.Encode(d)
      ensures Base64.Decode(s) == Some(d)
    {
      Base64.Base64RoundTrip(s, d);
    }
  }

  lemma StoredKeyProof(srv: Server, first: ClientFirst, f: ClientFinal)
    requires srv.stored.Known?
    ensures var p := Base64.Decode(f.proof); var stored := srv.stored.secret.storedKey;
      ProvesStoredKey(srv, first, f) <==>
        p.Some? && |p.value| == 32 && srv.h(XorAll(p.value, Hmac(srv.h, stored, Transcript(srv, first, f)))) == stored
  {
    var p := Base64.Decode(f.proof);
    var signature := Hmac(srv.h, srv.stored.secret.storedKey, Transcript(srv, first, f));
    if p.Some? && |p.value| == 32 {
      ProofExactly(f.proof, signature, XorAll(p.value, signature));
    }
    forall key: Digest | f.proof == Base64.Encode(XorAll(key, signature))
      ensures p.Some? && |p.value| == 32 && XorAll(p.value, signature) == key
    {
      ProofExactly(f.proof, signature, key);
    }
  }

  /** The proof recovers a known user's key. */
  predicate Recovers(srv: Server, first: ClientFirst, f: ClientFinal) {
    var p := Base64.Decode(f.proof);
    && srv.stored.Known? && p.Some? && |p.value| == 32
    && srv.h(XorAll(p.value, Hmac(srv.h, srv.stored.secret.storedKey, Transcript(srv, first, f)))) == srv.stored.secret.storedKey
  }

  predicate Denies(srv: Server, first: ClientFirst, c: seq<byte>, f: ClientFinal) {
    || f.nonce != first.nonce + srv.nonce
    || (IsBase64(f.channelBinding) && Base64.Decode(f.channelBinding) != Some(c))
    || (IsBase64(f.channelBinding) && IsBase64(f.proof) && !Recovers(srv, first, f))
  }

  lemma FinalDenies(srv: Server, first: ClientFirst, c: seq<byte>, q: seq<byte>)
    requires |q| >= 5
    ensures OnFinal(srv, first, c, q) == Denied <==>
              && Tag(q) == PASSWORD_MESSAGE && ValidUtf8(Payload(q)) && FinalOf(Payload(q)).Some?
              && Denies(srv, first, c, FinalOf(Payload(q)).value)
  {
  }

  lemma RecoversExactly(srv: Server, first: ClientFirst, f: ClientFinal)
    ensures Recovers(srv, first, f) <==> ProvesStoredKey(srv, first, f)
  {
    if srv.stored.Known? {
      StoredKeyProof(srv, first, f);
    }
  }

  /** On the second message. */
  lemma DeniedFinal(srv: Server, mechanism: seq<byte>, first: ClientFirst, c: seq<byte>, q: seq<byte>)
    requires |q| >= 5 && Binds(srv, mechanism, first, c)
    ensures OnFinal(srv, first, c, q) == Denied <==> DeniesFinal(srv, mechanism, first, q)
  {
    FinalDenies(srv, first, c, q);
    if FinalOf(Payload(q)).Some? {
      DeniedFields(srv, mechanism, first, c, FinalOf(Payload(q)).value);
    }
  }

  lemma DeniedFields(srv: Server, mechanism: seq<byte>, first: ClientFirst, c: seq<byte>, f: ClientFinal)
    requires Binds(srv, mechanism, first, c)
    ensures Denies(srv, first, c, f) <==> DeniesFields(srv, mechanism, first, f)
  {
    OtherBinding(srv, mechanism, first, c, f.channelBinding);
    IsBase64Exactly(f.channelBinding);
    IsBase64Exactly(f.proof);
    RecoversExactly(srv, first, f);
  }

  /** On the first. */
  lemma DeniedInitial(srv: Server, p: seq<byte>)
    requires |p| >= 5
    ensures OnInitial(srv, p) == Refused(true) <==> DeniesInitial(srv, p)
    ensures OnInitial(srv, p).Proceed? <==> exists mechanism, first, c ::
              Opens(p, mechanism, first) && Binds(srv, mechanism, first, c)
    ensures forall mechanism, first, c :: Opens(p, mechanism, first) && Binds(srv, mechanism, first, c) ==>
              OnInitial(srv, p) == Proceed(first, c)
  {
    assert |MECHANISM| == 13 && |MECHANISM_PLUS| == 18;
    var i := ParseSaslInitial(Payload(p));
    if i.Some? && ParseClientFirst(i.value.1).Some? {
      BindsExactly(srv, i.value.0, ParseClientFirst(i.value.1).value);
      assert Tag(p) == PASSWORD_MESSAGE ==> Opens(p, i.value.0, ParseClientFirst(i.value.1).value);
    }
  }

  /** Denial, exactly: a store that answers, and a first message for a mechanism not offered or with no legal binding; or
      one that goes through and a second whose nonce, binding or proof is wrong. Everything else that is not
      acceptance is an error, which is not answered. */
  lemma DeniedExactly(srv: Server, sent: seq<byte>, input: seq<byte>)
    ensures Serve(srv, sent, input).verdict == Denied <==> !srv.stored.Unavailable? && IsDenied(srv, input)
  {
    var p := ParseOne(input, MAX_AUTH_MESSAGE_LEN);
    if !srv.stored.Unavailable? && p.Complete? {
      DeniedInitial(srv, p.frame);
      var o, q := OnInitial(srv, p.frame), ParseOne(p.rest, MAX_AUTH_MESSAGE_LEN);
      if o.Proceed? {
        FinishDenies(srv, o.first, o.expected, sent + AuthenticationSasl(Offered(srv)), p.rest);
      }
      if q.Complete? {
        DeniedSecond(srv, p.frame, q.frame);
      }
    }
  }

  /** A first message that goes through, and a second that is denied. */
  ghost predicate DeniesSecond(srv: Server, p: seq<byte>, q: seq<byte>)
    requires |p| >= 5 && |q| >= 5
  {
    exists mechanism, first, c ::
      Opens(p, mechanism, first) && Binds(srv, mechanism, first, c) && DeniesFinal(srv, mechanism, first, q)
  }

  lemma DeniedSecond(srv: Server, p: seq<byte>, q: seq<byte>)
    requires |p| >= 5 && |q| >= 5
    ensures var o := OnInitial(srv, p);
      (o.Proceed? && OnFinal(srv, o.first, o.expected, q) == Denied) <==> DeniesSecond(srv, p, q)
  {
    DeniedInitial(srv, p);
    forall mechanism, first, c | Opens(p, mechanism, first) && Binds(srv, mechanism, first, c)
      ensures OnFinal(srv, first, c, q) == Denied <==> DeniesFinal(srv, mechanism, first, q)
    {
      DeniedFinal(srv, mechanism, first, c, q);
    }
  }

  lemma FinishDenies(srv: Server, first: ClientFirst, expected: seq<byte>, sent: seq<byte>, input: seq<byte>)
    ensures var q := ParseOne(input, MAX_AUTH_MESSAGE_LEN);
      Finish(srv, first, expected, sent, input).verdict == Denied
      <==> q.Complete? && OnFinal(srv, first, expected, q.frame) == Denied
  {
  }

  // ---------------------------------------------------------------------------------------------
  // What is written

  /** The challenges: the mechanisms, and once a first message has gone through, its server-first-message. */
  function Asked(srv: Server, input: seq<byte>): seq<byte> {
    var p := ParseOne(input, MAX_AUTH_MESSAGE_LEN);
    if srv.stored.Unavailable? then []
    else
      var o := if p.Complete? then OnInitial(srv, p.frame) else Refused(false);
      AuthenticationSasl(Offered(srv)) + if o.Proceed? then SaslMessage(AUTH_SASL_CONTINUE, ServerFirstFor(srv, o.first)) else []
  }

  /** The last word: on denial a fatal error that does not say what was wrong, on acceptance an AuthenticationSASLFinal, on an
      error nothing. */
  predicate LastWord(verdict: Verdict, last: seq<byte>) {
    match verdict
    case Errored => last == []
    case Denied =>
      BackendMessages.ReadsAsError(last, Ascii("FATAL"), Ascii("28P01"), Ascii("password authentication failed"))
    case Accepted(_) => |last| >= 9 && last[0] == 82 && last[5..9] == [0, 0, 0, 12]
  }

  /** The challenges and the last word, and nothing else. */
  lemma OutputExactly(srv: Server, sent: seq<byte>, input: seq<byte>)
    ensures var e := Serve(srv, sent, input); var asked := Asked(srv, input);
      sent + asked <= e.output && LastWord(e.verdict, e.output[|sent + asked|..])
  {
    var e, asked, offer := Serve(srv, sent, input), Asked(srv, input), AuthenticationSasl(Offered(srv));
    var p := ParseOne(input, MAX_AUTH_MESSAGE_LEN);
    assert sent + [] == sent && offer + [] == offer;
    DenialReadsBack();
    if !srv.stored.Unavailable? && p.Complete? && OnInitial(srv, p.frame).Proceed? {
      var o := OnInitial(srv, p.frame);
      Assoc(sent, offer, SaslMessage(AUTH_SASL_CONTINUE, ServerFirstFor(srv, o.first)));
      var last := FinishOutput(srv, o.first, o.expected, sent + offer, p.rest);
      assert e.output == sent + asked + last;
    }
  }

  lemma DenialReadsBack()
    ensures LastWord(Denied, DenyFrame())
  {
    BackendMessages.ErrorReadBack(Ascii("FATAL"), Ascii("28P01"), Ascii("password authentication failed"));
  }

  lemma FinishOutput(srv: Server, first: ClientFirst, expected: seq<byte>, sent: seq<byte>, input: seq<byte>)
    returns (last: seq<byte>)
    ensures var e := Finish(srv, first, expected, sent, input);
      && e.output == sent + SaslMessage(AUTH_SASL_CONTINUE, ServerFirstFor(srv, first)) + last
      && LastWord(e.verdict, last)
  {
    var p := ParseOne(input, MAX_AUTH_MESSAGE_LEN);
    last := [];
    if p.Complete? {
      var verdict := OnFinal(srv, first, expected, p.frame);
      if verdict.Denied? {
        DenialReadsBack();
        last := DenyFrame();
      } else if verdict.Accepted? {
        var message := FinalMessage(srv, Transcript(srv, first, FinalOf(Payload(p.frame)).value));
        FinalReadsBack(message);
        last := SaslMessage(AUTH_SASL_FINAL, message);
      }
    }
  }

  lemma FinalReadsBack(message: seq<byte>)
    ensures forall keys :: LastWord(Accepted(keys), SaslMessage(AUTH_SASL_FINAL, message))
  {
    assert SaslMessage(AUTH_SASL_FINAL, message)[5..9] == PutI32(AUTH_SASL_FINAL);
  }
}
