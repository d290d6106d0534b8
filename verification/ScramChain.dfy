/** The two sides of SCRAM-SHA-256 against each other, and chained: a client proves itself to the proxy, and the proxy
    reuses what it recovered to prove itself upstream (section 3 of RFC 5802). */
module ScramChain {
  import opened Bytes
  import opened Text
  import opened Codec
  import opened ScramCrypto
  import opened ScramMessages
  import opened ScramServer
  import opened ScramClient
  import Base64
  import ScramSecret

  // ---------------------------------------------------------------------------------------------
  // A dialogue

  /** What each side has been sent after `n` rounds, each answering all it has heard so far: to the server, and to
      the client. */
  function Talk(srv: Server, cl: Client, n: nat): (seq<byte>, seq<byte>) {
    if n == 0 then ([], [])
    else
      var (toServer, toClient) := Talk(srv, cl, n - 1);
      (ConverseFromStart(cl, [], toClient).output, Serve(srv, [], toServer).output)
  }

  // ---------------------------------------------------------------------------------------------
  // The five messages

  function Secret(srv: Server): ScramSecret.Secret {
    Verifier(srv)
  }

  function KeysFor(srv: Server, cl: Client): ScramKeys {
    cl.derive(Secret(srv).salt, Secret(srv).iterations)
  }

  function TheirFirst(srv: Server, cl: Client): seq<byte> {
    ServerFirst(cl.nonce + srv.nonce, Secret(srv).salt, Secret(srv).iterations)
  }

  function Reply(srv: Server, cl: Client): Answer {
    AnswerTo(cl, TheirFirst(srv, cl), Challenge(cl.nonce + srv.nonce, Secret(srv).salt, Secret(srv).iterations))
  }

  function S1(srv: Server): seq<byte> {
    AuthenticationSasl(Offered(srv))
  }

  function S2(srv: Server, cl: Client): seq<byte> {
    SaslMessage(AUTH_SASL_CONTINUE, TheirFirst(srv, cl))
  }

  function S3(srv: Server, cl: Client): seq<byte> {
    SaslMessage(AUTH_SASL_FINAL, FinalMessage(srv, Reply(srv, cl).authMessage))
  }

  function C1(cl: Client): seq<byte> {
    FirstFrame(cl)
  }

  function C2(srv: Server, cl: Client): seq<byte> {
    SaslResponse(Reply(srv, cl).response)
  }

  predicate Within(frame: seq<byte>, cap: int) {
    |frame| <= cap + 1
  }

  /** The server reads at most 64 KiB a message, the client at most 1 GiB. */
  predicate Fits(srv: Server, cl: Client) {
    && Within(C1(cl), MAX_AUTH_MESSAGE_LEN) && Within(C2(srv, cl), MAX_AUTH_MESSAGE_LEN)
    && Within(S1(srv), MAX_MESSAGE_LEN) && Within(S2(srv, cl), MAX_MESSAGE_LEN) && Within(S3(srv, cl), MAX_MESSAGE_LEN)
  }

  /** A known user whose verifier matches the keys the client will use, over comma-free nonces. */
  ghost predicate Matched(srv: Server, cl: Client) {
    && srv.h == cl.h && srv.stored.Known? && COMMA !in srv.nonce && COMMA !in cl.nonce
    && var keys, secret := KeysFor(srv, cl), Secret(srv);
       keys.stored == secret.storedKey == srv.h(keys.client) && keys.server == secret.serverKey
  }

  // ---------------------------------------------------------------------------------------------
  // Each message read by the other side

  lemma FrameRead(tag: byte, body: seq<byte>, rest: seq<byte>, cap: int)
    requires 0 <= cap < TWO31 && Within(Frame(tag, body), cap)
    ensures ParseOne(Frame(tag, body) + rest, cap) == Complete(Frame(tag, body), rest)
    ensures Tag(Frame(tag, body)) == tag && Payload(Frame(tag, body)) == body
  {
    FrameRoundTrip(tag, body, rest, cap);
  }

  lemma AuthRead(subtype: int, data: seq<byte>)
    requires 0 <= subtype < 100
    ensures var f := SaslMessage(subtype, data); IsAuth(f, subtype) && Payload(f)[4..] == data
  {
    var f := SaslMessage(subtype, data);
    FrameRoundTrip(AUTHENTICATION, PutI32(subtype) + data, [], 4);
    IsAuthExactly(f, subtype);
    assert (PutI32(subtype) + data)[4..] == data;
  }

  lemma OfferRead(srv: Server)
    ensures OffersScram(S1(srv))
  {
    var body := PutI32(AUTH_SASL) + CStrings(Offered(srv));
    AuthRead(AUTH_SASL, CStrings(Offered(srv)));
    NamesAreAscii();
    MechanismsRoundTrip(Offered(srv), []);
    assert CStrings(Offered(srv)) + [] == CStrings(Offered(srv));
    assert MECHANISM == Offered(srv)[|Offered(srv)| - 1];
  }

  lemma NamesAreAscii()
    ensures 0 !in MECHANISM && 0 !in MECHANISM_PLUS && ValidUtf8(MECHANISM) && ValidUtf8(MECHANISM_PLUS)
  {
    AsciiIsUtf8(MECHANISM);
    AsciiIsUtf8(MECHANISM_PLUS);
  }

  /** The server-first-message gives the client its challenge back. */
  lemma ChallengeRead(clientNonce: Str, serverNonce: Str, salt: seq<byte>, iterations: ScramSecret.u32)
    requires COMMA !in clientNonce && COMMA !in serverNonce
    ensures var nonce := clientNonce + serverNonce;
      ReadChallenge(clientNonce, ServerFirst(nonce, salt, iterations)) == Some(Challenge(nonce, salt, iterations))
  {
    var nonce, salt64, count := clientNonce + serverNonce, Base64.Encode(salt), PrintNat(iterations);
    Base64.EncodeIsText(salt);
    NumberText(iterations);
    ServerFirstAttrs(nonce, salt64, count);
    Base64.Base64RoundTrip(salt64, salt);
    DecimalRoundTrip(iterations);
  }

  lemma ServerFirstAttrs(nonce: seq<byte>, salt64: seq<byte>, count: seq<byte>)
    requires COMMA !in nonce && COMMA !in salt64 && COMMA !in count
    ensures var m := Attr(R, nonce) + [COMMA] + (Attr(S, salt64) + [COMMA] + Attr(I, count));
      FirstAttr(m, [R, EQ]) == Some(nonce) && FirstAttr(m, [S, EQ]) == Some(salt64) && FirstAttr(m, [I, EQ]) == Some(count)
  {
    var rest := Attr(S, salt64) + [COMMA] + Attr(I, count);
    AttrAtHead(R, nonce, rest, R);
    AttrAtHead(R, nonce, rest, S);
    AttrAtHead(R, nonce, rest, I);
    TwoAttrs(S, salt64, I, count);
  }

  lemma ServerFirstIsText(nonce: Str, salt: seq<byte>, iterations: nat)
    ensures ValidUtf8(ServerFirst(nonce, salt, iterations))
  {
    Base64.EncodeIsText(salt);
    NumberText(iterations);
    var after := [COMMA] + (Attr(S, Base64.Encode(salt)) + [COMMA] + Attr(I, PrintNat(iterations)));
    TextAround([R, EQ], nonce, after);
    assert [R, EQ] + nonce + after == ServerFirst(nonce, salt, iterations);
  }

  /** ASCII around a string is a string. */
  lemma TextAround(before: seq<byte>, s: Str, after: seq<byte>)
    requires IsAscii(before) && IsAscii(after)
    ensures ValidUtf8(before + s + after)
  {
    AsciiIsUtf8(before);
    AsciiIsUtf8(after);
    Utf8Concat(before, s);
    Utf8Concat(before + s, after);
  }

  lemma NumberText(n: nat)
    ensures COMMA !in PrintNat(n) && IsAscii(PrintNat(n))
  {
  }

  /** The client-first-message, by the server. */
  lemma FirstReadBack(cl: Client)
    requires COMMA !in cl.nonce
    ensures var bare := FirstBare(cl.nonce);
      ParseClientFirst(GS2 + bare) == Some(ClientFirst(GS2, bare, cl.nonce, Unbound))
  {
    var bare := FirstBare(cl.nonce);
    var first := ClientFirst(GS2, bare, cl.nonce, Unbound);
    TwoAttrs(N, [], R, cl.nonce);
    FirstIsText(cl.nonce);
    assert HeaderOf(first, [N], []);
    ClientFirstPrinted(first, [N], []);
  }

  lemma FirstIsText(nonce: Str)
    ensures ValidUtf8(GS2 + FirstBare(nonce))
  {
    var before: seq<byte> := [N, COMMA, COMMA, N, EQ, COMMA, R, EQ];
    TextAround(before, nonce, []);
    assert before + nonce + [] == GS2 + FirstBare(nonce);
  }

  lemma InitialReadBack(srv: Server, cl: Client)
    requires COMMA !in cl.nonce
    ensures OnInitial(srv, C1(cl)) == Proceed(ClientFirst(GS2, FirstBare(cl.nonce), cl.nonce, Unbound), GS2)
  {
    var response := GS2 + FirstBare(cl.nonce);
    var body := MECHANISM + [0] + PutI32(|response|) + response;
    FrameRoundTrip(PASSWORD_MESSAGE, body, [], 4);
    NamesAreAscii();
    SaslInitialExactly(body, MECHANISM, response);
    FirstReadBack(cl);
    UnboundProceeds(srv, C1(cl), response, ClientFirst(GS2, FirstBare(cl.nonce), cl.nonce, Unbound));
  }

  /** An unbound client is let in without -PLUS, whatever the server offered. */
  lemma UnboundProceeds(srv: Server, frame: seq<byte>, response: seq<byte>, first: ClientFirst)
    requires |frame| >= 5 && Tag(frame) == PASSWORD_MESSAGE
    requires ParseSaslInitial(Payload(frame)) == Some((MECHANISM, response))
    requires ParseClientFirst(response) == Some(first) && first.flag == Unbound
    ensures OnInitial(srv, frame) == Proceed(first, first.gs2Header)
  {
    BindsExactly(srv, MECHANISM, first);
    assert Binds(srv, MECHANISM, first, first.gs2Header);
  }

  /** The client-final-message, by the server. */
  lemma FinalReadBack(nonce: seq<byte>, proof: Digest)
    requires COMMA !in nonce
    ensures FinalOf(WithoutProof(nonce) + COMMA_P + Base64.Encode(proof))
            == Some(ClientFinal(Base64.Encode(GS2), nonce, Base64.Encode(proof), WithoutProof(nonce)))
  {
    var without, enc := WithoutProof(nonce), Base64.Encode(proof);
    Base64.EncodeIsText(GS2);
    Base64.EncodeIsText(proof);
    TwoAttrs(C, Base64.Encode(GS2), R, nonce);
    LastProof(without, enc);
    ClientFinalExactly(without + COMMA_P + enc, ClientFinal(Base64.Encode(GS2), nonce, enc, without));
  }

  lemma FinalIsText(nonce: Str, proof: Digest)
    ensures ValidUtf8(WithoutProof(nonce) + COMMA_P + Base64.Encode(proof))
  {
    Base64.EncodeIsText(GS2);
    Base64.EncodeIsText(proof);
    var before, after := Attr(C, Base64.Encode(GS2)) + ([COMMA] + [R, EQ]), COMMA_P + Base64.Encode(proof);
    TextAround(before, nonce, after);
    Regroup(Attr(C, Base64.Encode(GS2)), COMMA, [R, EQ], nonce, COMMA_P, Base64.Encode(proof));
  }

  lemma Regroup(a: seq<byte>, x: byte, k: seq<byte>, n: seq<byte>, p: seq<byte>, e: seq<byte>)
    ensures a + ([x] + k) + n + (p + e) == a + [x] + (k + n) + p + e
  {
  }

  /** A comma-free proof follows the last `,p=`. */
  lemma LastProof(without: seq<byte>, enc: seq<byte>)
    requires COMMA !in enc
    ensures forall j: nat :: OccursAt(without + COMMA_P + enc, COMMA_P, j) ==> j <= |without|
  {
    var s := without + COMMA_P + enc;
    forall j: nat | OccursAt(s, COMMA_P, j)
      ensures j <= |without|
    {
      assert s[j] == COMMA by { assert s[j..j + 3][0] == COMMA_P[0]; }
    }
  }

  // ---------------------------------------------------------------------------------------------
  // Each side against the other's messages

  lemma ServerAccepts(srv: Server, cl: Client)
    requires Matched(srv, cl)
    ensures var first := ClientFirst(GS2, FirstBare(cl.nonce), cl.nonce, Unbound);
      && ServerFirstFor(srv, first) == TheirFirst(srv, cl)
      && OnFinal(srv, first, GS2, C2(srv, cl)) == Accepted(KeysFor(srv, cl))
      && FinalOf(Payload(C2(srv, cl))).Some?
      && Transcript(srv, first, FinalOf(Payload(C2(srv, cl))).value) == Reply(srv, cl).authMessage
  {
    var keys, reply := KeysFor(srv, cl), Reply(srv, cl);
    var nonce := cl.nonce + srv.nonce;
    Utf8Concat(cl.nonce, srv.nonce);
    FrameRoundTrip(PASSWORD_MESSAGE, reply.response, [], 4);
    FinalReadBack(nonce, XorAll(keys.client, Hmac(cl.h, keys.stored, reply.authMessage)));
    FinalIsText(nonce, XorAll(keys.client, Hmac(cl.h, keys.stored, reply.authMessage)));
    AcceptedFinal(srv, ClientFirst(GS2, FirstBare(cl.nonce), cl.nonce, Unbound), GS2, C2(srv, cl), keys);
  }

  lemma ClientAnswers(srv: Server, cl: Client)
    requires Matched(srv, cl)
    ensures OnContinue(cl, S2(srv, cl)) == Some(Reply(srv, cl))
  {
    AuthRead(AUTH_SASL_CONTINUE, TheirFirst(srv, cl));
    Utf8Concat(cl.nonce, srv.nonce);
    ChallengeRead(cl.nonce, srv.nonce, Secret(srv).salt, Secret(srv).iterations);
    ServerFirstIsText(cl.nonce + srv.nonce, Secret(srv).salt, Secret(srv).iterations);
  }

  lemma ClientSatisfied(srv: Server, cl: Client)
    requires Matched(srv, cl)
    ensures OnOutcome(cl, Reply(srv, cl), S3(srv, cl))
  {
    var signature := Hmac(srv.h, Secret(srv).serverKey, Reply(srv, cl).authMessage);
    AuthRead(AUTH_SASL_FINAL, Attr(V, Base64.Encode(signature)));
    SignatureRead(signature);
  }

  lemma SignatureRead(signature: Digest)
    ensures var text := Attr(V, Base64.Encode(signature));
      FirstAttr(text, [V, EQ]) == Some(Base64.Encode(signature)) && ValidUtf8(text)
  {
    Base64.EncodeIsText(signature);
    AttrAlone(V, Base64.Encode(signature), V);
    AsciiIsUtf8(Attr(V, Base64.Encode(signature)));
  }

  // ---------------------------------------------------------------------------------------------
  // Streams

  /** The server, on as much of the client's side as there is. */
  lemma ServerRuns(srv: Server, cl: Client, tail: seq<byte>)
    requires Matched(srv, cl) && Fits(srv, cl)
    ensures Serve(srv, [], []).output == S1(srv)
    ensures Serve(srv, [], C1(cl)).output == S1(srv) + S2(srv, cl)
    ensures Serve(srv, [], C1(cl) + C2(srv, cl) + tail)
            == Exchange(Accepted(KeysFor(srv, cl)), S1(srv) + S2(srv, cl) + S3(srv, cl), tail)
  {
    InitialReadBack(srv, cl);
    ServerAccepts(srv, cl);
    FirstFrameRead(cl, []);
    FirstFrameRead(cl, C2(srv, cl) + tail);
    FrameRead(PASSWORD_MESSAGE, Reply(srv, cl).response, tail, MAX_AUTH_MESSAGE_LEN);
    ServeThrough(srv, ClientFirst(GS2, FirstBare(cl.nonce), cl.nonce, Unbound), GS2, C1(cl), C2(srv, cl), KeysFor(srv, cl), tail);
    Joined(C1(cl), C2(srv, cl), [], tail);
    Assoc(C1(cl), C2(srv, cl), tail);
  }

  lemma ServeThrough(srv: Server, first: ClientFirst, expected: seq<byte>, c1: seq<byte>, c2: seq<byte>, keys: ScramKeys,
                     tail: seq<byte>)
    requires |c1| >= 5 && |c2| >= 5 && !srv.stored.Unavailable?
    requires OnInitial(srv, c1) == Proceed(first, expected) && OnFinal(srv, first, expected, c2) == Accepted(keys)
    requires ParseOne(c1 + [], MAX_AUTH_MESSAGE_LEN) == Complete(c1, [])
    requires ParseOne(c1 + (c2 + tail), MAX_AUTH_MESSAGE_LEN) == Complete(c1, c2 + tail)
    requires ParseOne(c2 + tail, MAX_AUTH_MESSAGE_LEN) == Complete(c2, tail)
    ensures FinalOf(Payload(c2)).Some?
    ensures var s1, s2 := S1(srv), SaslMessage(AUTH_SASL_CONTINUE, ServerFirstFor(srv, first));
      var s3 := SaslMessage(AUTH_SASL_FINAL, FinalMessage(srv, Transcript(srv, first, FinalOf(Payload(c2)).value)));
      && Serve(srv, [], []).output == s1 && Serve(srv, [], c1 + []).output == s1 + s2
      && Serve(srv, [], c1 + (c2 + tail)) == Exchange(Accepted(keys), s1 + s2 + s3, tail)
  {
    assert [] + S1(srv) == S1(srv);
  }

  lemma FirstFrameRead(cl: Client, rest: seq<byte>)
    requires Within(C1(cl), MAX_AUTH_MESSAGE_LEN)
    ensures ParseOne(C1(cl) + rest, MAX_AUTH_MESSAGE_LEN) == Complete(C1(cl), rest)
  {
    var response := GS2 + FirstBare(cl.nonce);
    FrameRead(PASSWORD_MESSAGE, MECHANISM + [0] + PutI32(|response|) + response, rest, MAX_AUTH_MESSAGE_LEN);
  }

  lemma ServerFrameRead(body: seq<byte>, rest: seq<byte>)
    requires Within(Frame(AUTHENTICATION, body), MAX_MESSAGE_LEN)
    ensures ParseOne(Frame(AUTHENTICATION, body) + rest, MAX_MESSAGE_LEN) == Complete(Frame(AUTHENTICATION, body), rest)
  {
    FrameRead(AUTHENTICATION, body, rest, MAX_MESSAGE_LEN);
  }

  lemma OfferFrameRead(srv: Server, rest: seq<byte>)
    requires Within(S1(srv), MAX_MESSAGE_LEN)
    ensures ParseOne(S1(srv) + rest, MAX_MESSAGE_LEN) == Complete(S1(srv), rest)
  {
    ServerFrameRead(PutI32(AUTH_SASL) + CStrings(Offered(srv)), rest);
  }

  lemma SaslFrameRead(subtype: int, data: seq<byte>, rest: seq<byte>)
    requires Within(SaslMessage(subtype, data), MAX_MESSAGE_LEN)
    ensures ParseOne(SaslMessage(subtype, data) + rest, MAX_MESSAGE_LEN) == Complete(SaslMessage(subtype, data), rest)
  {
    ServerFrameRead(PutI32(subtype) + data, rest);
  }

  /** The client, on as much of the server's side as there is. */
  lemma ClientRuns(srv: Server, cl: Client, tail: seq<byte>)
    requires Matched(srv, cl) && Fits(srv, cl)
    ensures ConverseFromStart(cl, [], []).output == []
    ensures ConverseFromStart(cl, [], S1(srv)).output == C1(cl)
    ensures ConverseFromStart(cl, [], S1(srv) + S2(srv, cl)).output == C1(cl) + C2(srv, cl)
    ensures ConverseFromStart(cl, [], S1(srv) + S2(srv, cl) + S3(srv, cl) + tail)
            == Outcome(true, C1(cl) + C2(srv, cl), tail)
  {
    var s1, s2, s3 := S1(srv), S2(srv, cl), S3(srv, cl);
    OfferRead(srv);
    ClientAnswers(srv, cl);
    ClientSatisfied(srv, cl);
    OfferFrameRead(srv, []);
    OfferFrameRead(srv, s2 + []);
    OfferFrameRead(srv, s2 + (s3 + tail));
    SaslFrameRead(AUTH_SASL_CONTINUE, TheirFirst(srv, cl), []);
    SaslFrameRead(AUTH_SASL_CONTINUE, TheirFirst(srv, cl), s3 + tail);
    SaslFrameRead(AUTH_SASL_FINAL, FinalMessage(srv, Reply(srv, cl).authMessage), tail);
    ConverseThrough(cl, s1, s2, s3, Reply(srv, cl), tail);
    Joined(s1, s2, s3, tail);
  }

  lemma Joined(s1: seq<byte>, s2: seq<byte>, s3: seq<byte>, tail: seq<byte>)
    ensures s1 + [] == s1 && s1 + (s2 + []) == s1 + s2 && s1 + (s2 + (s3 + tail)) == s1 + s2 + s3 + tail
  {
  }

  lemma ConverseThrough(cl: Client, s1: seq<byte>, s2: seq<byte>, s3: seq<byte>, answer: Answer, tail: seq<byte>)
    requires |s1| >= 5 && |s2| >= 5 && |s3| >= 5
    requires OffersScram(s1) && OnContinue(cl, s2) == Some(answer) && OnOutcome(cl, answer, s3)
    requires ParseOne(s1 + [], MAX_MESSAGE_LEN) == Complete(s1, [])
    requires ParseOne(s1 + (s2 + []), MAX_MESSAGE_LEN) == Complete(s1, s2 + [])
    requires ParseOne(s1 + (s2 + (s3 + tail)), MAX_MESSAGE_LEN) == Complete(s1, s2 + (s3 + tail))
    requires ParseOne(s2 + [], MAX_MESSAGE_LEN) == Complete(s2, [])
    requires ParseOne(s2 + (s3 + tail), MAX_MESSAGE_LEN) == Complete(s2, s3 + tail)
    requires ParseOne(s3 + tail, MAX_MESSAGE_LEN) == Complete(s3, tail)
    ensures ConverseFromStart(cl, [], []).output == []
    ensures ConverseFromStart(cl, [], s1 + []).output == FirstFrame(cl)
    ensures ConverseFromStart(cl, [], s1 + (s2 + [])).output == FirstFrame(cl) + SaslResponse(answer.response)
    ensures ConverseFromStart(cl, [], s1 + (s2 + (s3 + tail)))
            == Outcome(true, FirstFrame(cl) + SaslResponse(answer.response), tail)
  {
    OfferAccepted(cl, s1, []);
    OfferAccepted(cl, s1, s2 + []);
    OfferAccepted(cl, s1, s2 + (s3 + tail));
    ChallengeAccepted(cl, FirstFrame(cl), s2, answer, []);
    ChallengeAccepted(cl, FirstFrame(cl), s2, answer, s3 + tail);
  }

  lemma OfferAccepted(cl: Client, s1: seq<byte>, rest: seq<byte>)
    requires |s1| >= 5 && OffersScram(s1) && ParseOne(s1 + rest, MAX_MESSAGE_LEN) == Complete(s1, rest)
    ensures ConverseFromStart(cl, [], s1 + rest) == FromChallenge(cl, FirstFrame(cl), rest)
  {
    assert [] + FirstFrame(cl) == FirstFrame(cl);
  }

  lemma ChallengeAccepted(cl: Client, sent: seq<byte>, s2: seq<byte>, answer: Answer, rest: seq<byte>)
    requires |s2| >= 5 && OnContinue(cl, s2) == Some(answer) && ParseOne(s2 + rest, MAX_MESSAGE_LEN) == Complete(s2, rest)
    ensures FromChallenge(cl, sent, s2 + rest) == FromSignature(cl, answer, sent + SaslResponse(answer.response), rest)
  {
  }

  // ---------------------------------------------------------------------------------------------
  // Sizes

  function Pow10(k: nat): nat {
    if k == 0 then 1 else 10 * Pow10(k - 1)
  }

  lemma {:induction false} PrintNatShort(n: nat, k: nat)
    requires k >= 1 && n < Pow10(k)
    ensures |PrintNat(n)| <= k
  {
    if n >= 10 {
      PrintNatShort(n / 10, k - 1);
    }
  }

  /** `random_nonce`: eighteen random bytes make twenty-four comma-free characters. */
  lemma GeneratedNonce(random: seq<byte>)
    requires |random| == 18
    ensures |Base64.Encode(random)| == 24 && COMMA !in Base64.Encode(random) && ValidUtf8(Base64.Encode(random))
  {
    Base64.EncodeLength(random);
    Base64.EncodeIsText(random);
    AsciiIsUtf8(Base64.Encode(random));
  }

  /** With generated nonces every message is within its reader's limit, up to a salt of half a gigabyte. */
  lemma GeneratedNoncesFit(srv: Server, cl: Client)
    requires |srv.nonce| == |cl.nonce| == 24 && |Secret(srv).salt| <= 0x2000_0000
    ensures Fits(srv, cl)
  {
    var keys, reply := KeysFor(srv, cl), Reply(srv, cl);
    Base64.EncodeLength(GS2);
    Base64.EncodeLength(XorAll(keys.client, Hmac(cl.h, keys.stored, reply.authMessage)));
    Base64.EncodeLength(Secret(srv).salt);
    Base64.EncodeLength(Hmac(srv.h, Secret(srv).serverKey, reply.authMessage));
    assert Pow10(10) > TWO32;
    PrintNatShort(Secret(srv).iterations, 10);
    OfferLength(srv);
    assert |reply.response| <= 200 && |C1(cl)| <= 100;
  }

  lemma OfferLength(srv: Server)
    ensures |S1(srv)| <= 100
  {
    assert CStrings([]) == [0];
    assert Offered(srv)[|Offered(srv)| - 1..] == [MECHANISM] && [MECHANISM][1..] == [];
    assert |CStrings([MECHANISM])| == 15;
    if srv.binding.Some? {
      assert Offered(srv)[1..] == [MECHANISM];
    }
  }

  // ---------------------------------------------------------------------------------------------
  // Main results

  /** The two sides, talking to each other, both succeed; the server recovers exactly the client's keys; and neither
      reads past its last message. */
  ghost predicate Succeed(srv: Server, cl: Client, keys: ScramKeys) {
    var (toServer, toClient) := Talk(srv, cl, 5);
    && Talk(srv, cl, 6) == (toServer, toClient)
    && Serve(srv, [], toServer) == Exchange(Accepted(keys), toClient, [])
    && ConverseFromStart(cl, [], toClient) == Outcome(true, toServer, [])
    && (forall tail :: ConverseFromStart(cl, [], toClient + tail) == Outcome(true, toServer, tail))
    && (forall tail :: Serve(srv, [], toServer + tail) == Exchange(Accepted(keys), toClient, tail))
  }

  lemma MatchedSucceed(srv: Server, cl: Client)
    requires Matched(srv, cl) && Fits(srv, cl)
    ensures Succeed(srv, cl, KeysFor(srv, cl))
  {
    var s1, s2, s3, c1, c2 := S1(srv), S2(srv, cl), S3(srv, cl), C1(cl), C2(srv, cl);
    ServerRuns(srv, cl, []);
    ClientRuns(srv, cl, []);
    assert c1 + c2 + [] == c1 + c2 && s1 + s2 + s3 + [] == s1 + s2 + s3;
    assert Talk(srv, cl, 1) == ([], s1);
    assert Talk(srv, cl, 2) == (c1, s1);
    assert Talk(srv, cl, 3) == (c1, s1 + s2);
    assert Talk(srv, cl, 4) == (c1 + c2, s1 + s2);
    assert Talk(srv, cl, 5) == (c1 + c2, s1 + s2 + s3);
    forall tail
      ensures ConverseFromStart(cl, [], s1 + s2 + s3 + tail) == Outcome(true, c1 + c2, tail)
    {
      ClientRuns(srv, cl, tail);
    }
    forall tail
      ensures Serve(srv, [], c1 + c2 + tail) == Exchange(Accepted(KeysFor(srv, cl)), s1 + s2 + s3, tail)
    {
      ServerRuns(srv, cl, tail);
    }
  }

  /** Completeness: a client with the password is accepted by a server with the verifier made from it, for every
      salt, iteration count, hash, channel-binding offer and comma-free nonces; and the server comes away with
      the keys the password gives. */
  lemma PasswordAccepted(srv: Server, nonce: Str, password: seq<byte>, salt: seq<byte>, iterations: ScramSecret.u32)
    requires srv.stored == Known(ScramSecret.FromPassword(srv.h, password, salt, iterations))
    requires COMMA !in nonce && COMMA !in srv.nonce && Fits(srv, Client(srv.h, nonce, Deriving(srv.h, password)))
    ensures Succeed(srv, Client(srv.h, nonce, Deriving(srv.h, password)), FromPassword(srv.h, password, salt, iterations))
  {
    MatchedSucceed(srv, Client(srv.h, nonce, Deriving(srv.h, password)));
  }

  /** The chain: whatever a client sent to be accepted, the keys the proxy recovered from it are accepted upstream by
      any server that holds the same StoredKey and ServerKey, even under another salt and iteration count. */
  lemma RecoveredKeysAccepted(srv: Server, sent: seq<byte>, input: seq<byte>, keys: ScramKeys, upstream: Server, nonce: Str)
    requires Serve(srv, sent, input).verdict == Accepted(keys)
    requires upstream.h == srv.h && upstream.stored.Known?
    requires Verifier(upstream).storedKey == Verifier(srv).storedKey
    requires Verifier(upstream).serverKey == Verifier(srv).serverKey
    requires COMMA !in nonce && COMMA !in upstream.nonce && Fits(upstream, Client(srv.h, nonce, Reusing(keys)))
    ensures Succeed(upstream, Client(srv.h, nonce, Reusing(keys)), keys)
  {
    AcceptedExactly(srv, sent, input, keys);
    MatchedSucceed(upstream, Client(srv.h, nonce, Reusing(keys)));
  }

  // ---------------------------------------------------------------------------------------------
  // The texts, letter for letter

  lemma Letters()
    ensures Ascii("r=") == [114, 61] && Ascii(",s=") == [44, 115, 61] && Ascii(",i=") == [44, 105, 61]
    ensures Ascii("n,,n=,r=") == [110, 44, 44, 110, 61, 44, 114, 61] && Ascii("v=") == [118, 61]
    ensures Ascii("c=biws,r=") == [99, 61, 98, 105, 119, 115, 44, 114, 61] && Ascii(",p=") == [44, 112, 61]
  {
  }

  /** The encoding of the GS2 header `n,,`. */
  lemma HeaderEncodes()
    ensures Base64.Encode(GS2) == [98, 105, 119, 115]
  {
    assert GS2[3..] == [];
  }

  /** What the server says: `r=<nonce>,s=<salt>,i=<count>` and `v=<signature>` (section 7 of RFC 5802). */
  lemma ServerTexts(srv: Server, nonce: seq<byte>, salt: seq<byte>, iterations: nat, authMessage: seq<byte>)
    ensures ServerFirst(nonce, salt, iterations)
            == Ascii("r=") + nonce + Ascii(",s=") + Base64.Encode(salt) + Ascii(",i=") + PrintNat(iterations)
    ensures ScramServer.FinalMessage(srv, authMessage)
            == Ascii("v=") + Base64.Encode(Hmac(srv.h, ScramServer.Verifier(srv).serverKey, authMessage))
  {
    Letters();
  }

  /** What the client says: `n,,n=,r=<nonce>` and `c=biws,r=<nonce>,p=<proof>`. */
  lemma ClientTexts(cl: Client, serverFirst: seq<byte>, ch: ScramClient.Challenge)
    ensures GS2 + FirstBare(cl.nonce) == Ascii("n,,n=,r=") + cl.nonce
    ensures var a := ScramClient.AnswerTo(cl, serverFirst, ch);
      a.response == Ascii("c=biws,r=") + ch.nonce + Ascii(",p=")
                    + Base64.Encode(XorAll(a.keys.client, Hmac(cl.h, a.keys.stored, a.authMessage)))
  {
    Letters();
    HeaderEncodes();
  }

  /** And in which frames: the sub-types of the server's, and tag `p` for the client's. */
  lemma FramesOnTheWire(data: seq<byte>)
    ensures SaslMessage(AUTH_SASL_CONTINUE, data) == Frame(82, [0, 0, 0, 11] + data)
    ensures SaslMessage(AUTH_SASL_FINAL, data) == Frame(82, [0, 0, 0, 12] + data)
    ensures SaslResponse(data) == Frame(112, data)
    ensures SaslInitialResponse(MECHANISM, data) == Frame(112, Ascii("SCRAM-SHA-256") + [0] + PutI32(|data|) + data)
  {
    assert PutI32(11) == [0, 0, 0, 11] && PutI32(12) == [0, 0, 0, 12];
  }

  /** The offer: -PLUS first, and only with binding data. */
  lemma OfferOnTheWire(srv: Server)
    ensures AuthenticationSasl(ScramServer.Offered(srv))
            == Frame(82, [0, 0, 0, 10] + (if srv.binding.Some? then Ascii("SCRAM-SHA-256-PLUS") + [0] else [])
                         + Ascii("SCRAM-SHA-256") + [0, 0])
  {
    assert PutI32(10) == [0, 0, 0, 10];
    OfferedNames(srv);
  }

  lemma OfferedNames(srv: Server)
    ensures CStrings(ScramServer.Offered(srv))
            == (if srv.binding.Some? then MECHANISM_PLUS + [0] else []) + MECHANISM + [0, 0]
  {
    var one := [MECHANISM];
    assert one[1..] == [] && CStrings(one) == MECHANISM + [0] + CStrings(one[1..]);
    if srv.binding.Some? {
      var two := [MECHANISM_PLUS, MECHANISM];
      assert two[1..] == one && CStrings(two) == MECHANISM_PLUS + [0] + CStrings(two[1..]);
    }
  }
}
