/** The direct forwarder's startup relay (src/proxy/direct.rs): the backend's greeting reaches the client unchanged but for
    the cancel key, and each interactive challenge takes one client message back. */
module Direct {
  import opened Bytes
  import opened Codec

  const AUTH_OK := 0
  const AUTH_SASL_FINAL := 12

  // ---------------------------------------------------------------------------------------------
  // What a greeting is

  predicate IsFrame(f: seq<byte>) {
    |f| >= 5
  }

  type Message = f: seq<byte> | IsFrame(f) witness [0, 0, 0, 0, 4]

  predicate Framed(frames: seq<seq<byte>>) {
    forall i :: 0 <= i < |frames| ==> IsFrame(frames[i])
  }

  /** `auth_subtype` */
  function AuthSubtype(f: Message): Option<int> {
    if |Payload(f)| < 4 then None else Some(ReadI32(Payload(f)[..4]))
  }

  /** A message the relay goes on after: authentication it can relay, or anything but the end of startup or an error. */
  predicate Passes(f: Message, interactive: bool) {
    && f[0] != READY_FOR_QUERY && f[0] != ERROR_RESPONSE
    && (f[0] == AUTHENTICATION ==> AuthSubtype(f).Some? && (interactive || AuthSubtype(f) == Some(AUTH_OK)))
  }

  /** A challenge the client must answer. */
  predicate IsChallenge(f: Message) {
    f[0] == AUTHENTICATION && AuthSubtype(f) != Some(AUTH_OK) && AuthSubtype(f) != Some(AUTH_SASL_FINAL)
  }

  predicate AllPass(frames: seq<seq<byte>>, interactive: bool) {
    forall i :: 0 <= i < |frames| ==> IsFrame(frames[i]) && Passes(frames[i], interactive)
  }

  /** Messages the relay passes, then the first ReadyForQuery. */
  predicate IsGreeting(frames: seq<seq<byte>>, interactive: bool) {
    && Framed(frames) && frames != []
    && frames[|frames| - 1][0] == READY_FOR_QUERY && AllPass(frames[..|frames| - 1], interactive)
  }

  function Challenges(frames: seq<seq<byte>>): (n: nat)
    requires Framed(frames)
  {
    if frames == [] then 0
    else Challenges(frames[..|frames| - 1]) + if IsChallenge(frames[|frames| - 1]) then 1 else 0
  }

  /** What the client is sent for a backend message: a BackendKeyData carries the issued key instead. */
  function Substituted(f: Message, issued: Option<seq<byte>>): seq<byte> {
    if f[0] == BACKEND_KEY_DATA && issued.Some? then Frame(BACKEND_KEY_DATA, issued.value) else f
  }

  function AllSubstituted(frames: seq<seq<byte>>, issued: Option<seq<byte>>): seq<seq<byte>>
    requires Framed(frames)
  {
    seq(|frames|, i requires 0 <= i < |frames| => Substituted(frames[i], issued))
  }

  /** The slot after one message. */
  function Captured(f: Message, issued: Option<seq<byte>>, slot: Option<seq<byte>>): Option<seq<byte>> {
    if f[0] == BACKEND_KEY_DATA && issued.Some? then Some(Payload(f)) else slot
  }

  /** The slot after a greeting: the last key captured, if keys are captured and one came. */
  function SlotAfter(frames: seq<seq<byte>>, issued: Option<seq<byte>>, slot: Option<seq<byte>>): Option<seq<byte>>
    requires Framed(frames)
  {
    if frames == [] then slot else Captured(frames[|frames| - 1], issued, SlotAfter(frames[..|frames| - 1], issued, slot))
  }

  // ---------------------------------------------------------------------------------------------
  // Streams of messages

  function Messages(s: seq<byte>): (frames: seq<seq<byte>>) {
    ParseAll(s, MAX_MESSAGE_LEN).0
  }

  lemma NextMessage(s: seq<byte>)
    ensures var p := ParseOne(s, MAX_MESSAGE_LEN);
      Messages(s) == if p.Complete? then [p.frame] + Messages(p.rest) else []
    ensures var p := ParseOne(s, MAX_MESSAGE_LEN); p.Complete? ==> IsFrame(p.frame) && s == p.frame + p.rest
  {
  }

  /** `taken` messages of `all` have been read, leaving `left`. */
  ghost predicate ReadSoFar(all: seq<byte>, taken: seq<seq<byte>>, left: seq<byte>) {
    Framed(taken) && Messages(all) == taken + Messages(left) && all == Concat(taken) + left
  }

  lemma ReadOneMore(all: seq<byte>, taken: seq<seq<byte>>, left: seq<byte>)
    requires ReadSoFar(all, taken, left) && ParseOne(left, MAX_MESSAGE_LEN).Complete?
    ensures var p := ParseOne(left, MAX_MESSAGE_LEN); ReadSoFar(all, taken + [p.frame], p.rest)
  {
    var p := ParseOne(left, MAX_MESSAGE_LEN);
    NextMessage(left);
    ConcatSnoc(taken, p.frame);
    AssocAll(taken, [p.frame], Messages(p.rest));
    Assoc(Concat(taken), p.frame, p.rest);
  }

  lemma SeeOneMore(seen: seq<seq<byte>>, f: Message, issued: Option<seq<byte>>, slot: Option<seq<byte>>)
    requires Framed(seen)
    ensures Framed(seen + [f])
    ensures Challenges(seen + [f]) == Challenges(seen) + if IsChallenge(f) then 1 else 0
    ensures Concat(AllSubstituted(seen + [f], issued)) == Concat(AllSubstituted(seen, issued)) + Substituted(f, issued)
    ensures SlotAfter(seen + [f], issued, slot) == Captured(f, issued, SlotAfter(seen, issued, slot))
  {
    assert (seen + [f])[..|seen|] == seen;
    ConcatSnoc(AllSubstituted(seen, issued), Substituted(f, issued));
    assert AllSubstituted(seen + [f], issued) == AllSubstituted(seen, issued) + [Substituted(f, issued)];
  }

  lemma {:induction false} MoreChallenges(frames: seq<seq<byte>>, k: nat)
    requires Framed(frames) && k <= |frames|
    ensures Framed(frames[..k]) && Challenges(frames[..k]) <= Challenges(frames)
  {
    if k == |frames| {
      assert frames[..k] == frames;
    } else {
      var shorter := frames[..|frames| - 1];
      MoreChallenges(shorter, k);
      assert shorter[..k] == frames[..k];
    }
  }

  // ---------------------------------------------------------------------------------------------
  // When startup completes

  /** The first `n` backend messages are a greeting, and the client has answered enough. */
  ghost predicate Completes(backend: seq<byte>, client: seq<byte>, interactive: bool, n: nat) {
    && n <= |Messages(backend)| && IsGreeting(Messages(backend)[..n], interactive)
    && Challenges(Messages(backend)[..n]) <= |Messages(client)|
  }

  /** After messages that all pass, a greeting must be longer, and go on as a greeting does. */
  lemma GreetingGoesOn(all: seq<seq<byte>>, k: nat, interactive: bool, n: nat)
    requires k <= |all| && AllPass(all[..k], interactive) && n <= |all| && IsGreeting(all[..n], interactive)
    ensures k < n && IsFrame(all[k]) && (all[k][0] == READY_FOR_QUERY || Passes(all[k], interactive))
    ensures Framed(all[..k]) && Challenges(all[..k]) <= Challenges(all[..n])
  {
    assert all[..n][..k] == all[..k];
    MoreChallenges(all[..n], k);
    if k < n - 1 {
      assert all[..n][..n - 1][k] == all[k];
    }
  }

  /** A stream has at most one greeting. */
  lemma GreetingIsUnique(backend: seq<byte>, interactive: bool, m: nat, n: nat)
    requires m <= |Messages(backend)| && n <= |Messages(backend)|
    requires IsGreeting(Messages(backend)[..m], interactive) && IsGreeting(Messages(backend)[..n], interactive)
    ensures m == n
  {
    var all := Messages(backend);
    assert all[..m][..m - 1] == all[..m - 1] && all[..n][..n - 1] == all[..n - 1];
    GreetingGoesOn(all, m - 1, interactive, n);
    GreetingGoesOn(all, n - 1, interactive, m);
  }

  /** A message that neither passes nor ends startup, or the end of the stream, rules every greeting out. */
  lemma NoGreeting(backend: seq<byte>, client: seq<byte>, interactive: bool, seen: seq<seq<byte>>, left: seq<byte>)
    requires ReadSoFar(backend, seen, left) && AllPass(seen, interactive)
    requires var p := ParseOne(left, MAX_MESSAGE_LEN);
      p.Complete? ==> p.frame[0] != READY_FOR_QUERY && !Passes(p.frame, interactive)
    ensures forall n :: !Completes(backend, client, interactive, n)
  {
    NextMessage(left);
    var all := Messages(backend);
    assert all[..|seen|] == seen;
    forall n: nat
      ensures !Completes(backend, client, interactive, n)
    {
      if n <= |all| && IsGreeting(all[..n], interactive) {
        GreetingGoesOn(all, |seen|, interactive, n);
      }
    }
  }

  /** So does a challenge more than the client has answers for. */
  lemma NoAnswer(backend: seq<byte>, client: seq<byte>, interactive: bool, seen: seq<seq<byte>>, left: seq<byte>)
    requires ReadSoFar(backend, seen, left) && AllPass(seen, interactive)
    requires Framed(seen) && Challenges(seen) > |Messages(client)|
    ensures forall n :: !Completes(backend, client, interactive, n)
  {
    var all := Messages(backend);
    assert all[..|seen|] == seen;
    forall n: nat
      ensures !Completes(backend, client, interactive, n)
    {
      if n <= |all| && IsGreeting(all[..n], interactive) {
        GreetingGoesOn(all, |seen|, interactive, n);
      }
    }
  }

  lemma Ends(backend: seq<byte>, client: seq<byte>, interactive: bool, seen: seq<seq<byte>>, left: seq<byte>,
                  f: Message)
    requires ReadSoFar(backend, seen + [f], left) && AllPass(seen, interactive) && f[0] == READY_FOR_QUERY
    requires Framed(seen) && Challenges(seen + [f]) <= |Messages(client)|
    ensures Completes(backend, client, interactive, |seen| + 1) && Messages(backend)[..|seen| + 1] == seen + [f]
  {
    assert Messages(backend)[..|seen| + 1] == seen + [f];
    assert (seen + [f])[..|seen|] == seen;
  }

  // ---------------------------------------------------------------------------------------------
  // On the wire

  /** An Authentication message is relayed if it has a sub-type, without interaction only AuthenticationOk; all but
      AuthenticationOk and AuthenticationSASLFinal take an answer. */
  lemma AuthenticationKinds(f: Message, interactive: bool)
    requires f[0] == 'R' as int
    ensures Passes(f, interactive) <==> |f| >= 9 && (interactive || f[5..9] == [0, 0, 0, 0])
    ensures |f| >= 9 ==> (IsChallenge(f) <==> f[5..9] != [0, 0, 0, 0] && f[5..9] != [0, 0, 0, 12])
  {
    if |f| >= 9 {
      assert Payload(f)[..4] == f[5..9];
      I32RoundTripBack(f[5..9]);
      assert PutI32(AUTH_OK) == [0, 0, 0, 0] && PutI32(AUTH_SASL_FINAL) == [0, 0, 0, 12];
      assert ReadI32([0, 0, 0, 0]) == AUTH_OK && ReadI32([0, 0, 0, 12]) == AUTH_SASL_FINAL;
    }
  }

  /** A client that parses what it was sent finds the backend's messages, each BackendKeyData with the issued key. */
  predicate SeenBy(out: seq<seq<byte>>, frames: seq<seq<byte>>, issued: Option<seq<byte>>) {
    && |out| == |frames|
    && forall i :: 0 <= i < |frames| ==> && IsFrame(frames[i])
                                         && if frames[i][0] == 'K' as int && issued.Some?
                                            then IsFrame(out[i]) && out[i][0] == 'K' as int && out[i][5..] == issued.value
                                            else out[i] == frames[i]
  }

  lemma ClientSeesIssuedKey(frames: seq<seq<byte>>, issued: Option<seq<byte>>)
    requires forall i :: 0 <= i < |frames| ==> WholeFrame(frames[i], MAX_MESSAGE_LEN)
    requires issued.Some? ==> |issued.value| + 4 <= MAX_MESSAGE_LEN
    ensures Framed(frames)
    ensures var out := ParseAll(Concat(AllSubstituted(frames, issued)), MAX_MESSAGE_LEN);
      out.1.CleanEnd? && SeenBy(out.0, frames, issued)
  {
    var out := AllSubstituted(frames, issued);
    forall i | 0 <= i < |out|
      ensures WholeFrame(out[i], MAX_MESSAGE_LEN)
    {
      if issued.Some? {
        KeyFrameIsWhole(issued.value);
      }
    }
    ParseAllConcat(out, MAX_MESSAGE_LEN);
  }

  lemma KeyFrameIsWhole(key: seq<byte>)
    requires |key| + 4 <= MAX_MESSAGE_LEN
    ensures WholeFrame(Frame(BACKEND_KEY_DATA, key), MAX_MESSAGE_LEN)
    ensures Frame(BACKEND_KEY_DATA, key)[5..] == key
  {
    var f := Frame(BACKEND_KEY_DATA, key);
    assert f[1..5] == PutI32(|key| + 4) + [];
    I32RoundTrip(|key| + 4, []);
  }

  predicate LastKeyAt(frames: seq<seq<byte>>, i: nat)
    requires Framed(frames)
  {
    i < |frames| && frames[i][0] == 'K' as int && forall j :: i < j < |frames| ==> frames[j][0] != 'K' as int
  }

  predicate NoKey(frames: seq<seq<byte>>)
    requires Framed(frames)
  {
    forall i :: 0 <= i < |frames| ==> frames[i][0] != 'K' as int
  }

  /** The slot ends up with the backend's last key, if keys are issued in its place and one came, and is left alone otherwise. */
  lemma {:induction false} SlotIsLastKey(frames: seq<seq<byte>>, issued: Option<seq<byte>>, slot: Option<seq<byte>>, i: nat)
    requires Framed(frames)
    ensures issued.Some? && LastKeyAt(frames, i) ==> SlotAfter(frames, issued, slot) == Some(frames[i][5..])
    ensures issued.None? || NoKey(frames) ==> SlotAfter(frames, issued, slot) == slot
    decreases |frames|
  {
    if frames != [] {
      SlotIsLastKey(frames[..|frames| - 1], issued, slot, i);
      if i < |frames| - 1 {
        LastKeyBefore(frames, i);
      }
    }
  }

  lemma LastKeyBefore(frames: seq<seq<byte>>, i: nat)
    requires Framed(frames) && i < |frames| - 1
    ensures LastKeyAt(frames, i) <==> frames[|frames| - 1][0] != 'K' as int && LastKeyAt(frames[..|frames| - 1], i)
  {
    var before := frames[..|frames| - 1];
    assert forall j :: 0 <= j < |before| ==> before[j] == frames[j];
  }

  // ---------------------------------------------------------------------------------------------
  // The relay

  /** The cancel slot: the backend key a cancel would use. */
  class Slot {
    var target: Option<seq<byte>>

    method Set(key: seq<byte>)
      modifies this
      ensures target == Some(key)
    {
      target := Some(key);
    }
  }

  /** How far the relay has got: what it has read from each side. */
  ghost predicate Progress(b0: seq<byte>, b: seq<byte>, c0: seq<byte>, c: seq<byte>, seen: seq<seq<byte>>,
                           answers: seq<seq<byte>>, interactive: bool) {
    && ReadSoFar(b0, seen, b) && ReadSoFar(c0, answers, c) && AllPass(seen, interactive) && |answers| == Challenges(seen)
  }

  /** How it ended. */
  datatype Ending = Completed | BackendError | Unsupported | BackendGone | ClientGone

  /** A read that found no whole message, and what it left. */
  predicate RanOut(left: seq<byte>, rest: seq<byte>) {
    var p := ParseOne(left, MAX_MESSAGE_LEN);
    !p.Complete? && rest == AfterFailedRead(p)
  }

  /** Every challenge has been answered, and nothing else read from the client. */
  ghost predicate AllAnswered(c0: seq<byte>, c: seq<byte>, seen: seq<seq<byte>>, answers: seq<seq<byte>>)
    requires Framed(seen)
  {
    ReadSoFar(c0, answers, c) && |answers| == Challenges(seen)
  }

  /** Startup completed exactly when the backend's messages start with a greeting and the client has answered each of its
      challenges. What has been seen is that greeting; or, on failure, the messages that pass up to the one that ended
      it, with an ErrorResponse seen too and an authentication request that cannot be relayed read but not seen.
      Nothing after that has been read from either side. */
  ghost predicate Finished(b0: seq<byte>, b: seq<byte>, c0: seq<byte>, c: seq<byte>, seen: seq<seq<byte>>,
                           answers: seq<seq<byte>>, interactive: bool, how: Ending) {
    && (how.Completed? <==> exists n :: Completes(b0, c0, interactive, n))
    && Framed(seen)
    && match how
       case Completed => IsGreeting(seen, interactive) && ReadSoFar(b0, seen, b) && AllAnswered(c0, c, seen, answers)
       case BackendError =>
         && seen != [] && seen[|seen| - 1][0] == ERROR_RESPONSE && AllPass(seen[..|seen| - 1], interactive)
         && ReadSoFar(b0, seen, b) && AllAnswered(c0, c, seen, answers)
       case Unsupported =>
         && AllPass(seen, interactive) && AllAnswered(c0, c, seen, answers)
         && exists f: Message :: f[0] == AUTHENTICATION && !Passes(f, interactive) && ReadSoFar(b0, seen + [f], b)
       case BackendGone =>
         && AllPass(seen, interactive) && AllAnswered(c0, c, seen, answers)
         && exists left :: ReadSoFar(b0, seen, left) && RanOut(left, b)
       case ClientGone =>
         && AllPass(seen, interactive) && ReadSoFar(b0, seen, b) && |answers| + 1 == Challenges(seen)
         && exists left :: ReadSoFar(c0, answers, left) && RanOut(left, c)
  }

  lemma StopsAtError(b0: seq<byte>, b: seq<byte>, c0: seq<byte>, c: seq<byte>, seen: seq<seq<byte>>, answers: seq<seq<byte>>,
                     interactive: bool, left: seq<byte>, f: Message)
    requires Progress(b0, left, c0, c, seen, answers, interactive) && ParseOne(left, MAX_MESSAGE_LEN) == Complete(f, b)
    requires f[0] == ERROR_RESPONSE
    ensures Finished(b0, b, c0, c, seen + [f], answers, interactive, BackendError)
  {
    NoGreeting(b0, c0, interactive, seen, left);
    Advance(b0, left, seen, interactive, f, b);
    assert (seen + [f])[..|seen|] == seen;
  }

  lemma StopsUnsupported(b0: seq<byte>, b: seq<byte>, c0: seq<byte>, c: seq<byte>, seen: seq<seq<byte>>,
                         answers: seq<seq<byte>>, interactive: bool, left: seq<byte>, f: Message)
    requires Progress(b0, left, c0, c, seen, answers, interactive) && ParseOne(left, MAX_MESSAGE_LEN) == Complete(f, b)
    requires f[0] == AUTHENTICATION && !Passes(f, interactive)
    ensures Finished(b0, b, c0, c, seen, answers, interactive, Unsupported)
  {
    NoGreeting(b0, c0, interactive, seen, left);
    Advance(b0, left, seen, interactive, f, b);
  }

  /** What it has written to each side and left in the slot. */
  datatype Written = Written(toClient: seq<byte>, toBackend: seq<byte>, slot: Option<seq<byte>>)

  ghost predicate Sent(w0: Written, w: Written, seen: seq<seq<byte>>, answers: seq<seq<byte>>, issued: Option<seq<byte>>) {
    && Framed(seen)
    && w.toClient == w0.toClient + Concat(AllSubstituted(seen, issued))
    && w.toBackend == w0.toBackend + Concat(answers)
    && w.slot == SlotAfter(seen, issued, w0.slot)
  }

  lemma SentOneMore(w0: Written, w: Written, seen: seq<seq<byte>>, answers: seq<seq<byte>>, issued: Option<seq<byte>>,
                    f: Message)
    requires Sent(w0, w, seen, answers, issued)
    ensures Sent(w0, w.(toClient := w.toClient + Substituted(f, issued), slot := Captured(f, issued, w.slot)),
                 seen + [f], answers, issued)
  {
    SeeOneMore(seen, f, issued, w0.slot);
    Assoc(w0.toClient, Concat(AllSubstituted(seen, issued)), Substituted(f, issued));
  }

  lemma AnsweredOneMore(w0: Written, w: Written, seen: seq<seq<byte>>, answers: seq<seq<byte>>, issued: Option<seq<byte>>,
                        r: seq<byte>)
    requires Sent(w0, w, seen, answers, issued)
    ensures Sent(w0, w.(toBackend := w.toBackend + r), seen, answers + [r], issued)
  {
    ConcatSnoc(answers, r);
    Assoc(w0.toBackend, Concat(answers), r);
  }

  lemma Begins(b0: seq<byte>, c0: seq<byte>, w0: Written, issued: Option<seq<byte>>, interactive: bool)
    ensures Progress(b0, b0, c0, c0, [], [], interactive) && Sent(w0, w0, [], [], issued)
  {
    assert AllSubstituted([], issued) == [];
    assert w0.toClient + [] == w0.toClient && w0.toBackend + [] == w0.toBackend;
    assert [] + Messages(b0) == Messages(b0) && [] + Messages(c0) == Messages(c0);
    assert [] + b0 == b0 && [] + c0 == c0;
  }

  /** One more message seen. */
  lemma Advance(b0: seq<byte>, left: seq<byte>, seen: seq<seq<byte>>, interactive: bool, f: Message, rest: seq<byte>)
    requires ReadSoFar(b0, seen, left) && ParseOne(left, MAX_MESSAGE_LEN) == Complete(f, rest)
    ensures ReadSoFar(b0, seen + [f], rest) && seen + [f] <= Messages(b0)
    ensures Challenges(seen + [f]) == Challenges(seen) + if IsChallenge(f) then 1 else 0
    ensures AllPass(seen, interactive) && Passes(f, interactive) ==> AllPass(seen + [f], interactive)
  {
    ReadOneMore(b0, seen, left);
    SeeOneMore(seen, f, None, None);
  }

  /** The two connections and the slot of one session. */
  class Session {
    const client: Transport
    const toClient: Sink
    const backend: Transport
    const toBackend: Sink
    const slot: Slot

    constructor (client: Transport, toClient: Sink, backend: Transport, toBackend: Sink, slot: Slot)
      ensures this.client == client && this.toClient == toClient && this.backend == backend
      ensures this.toBackend == toBackend && this.slot == slot
    {
      this.client, this.toClient, this.backend, this.toBackend, this.slot := client, toClient, backend, toBackend, slot;
    }

    ghost predicate Apart() {
      client != backend && toClient != toBackend
    }

    ghost function Output(): Written
      reads toClient, toBackend, slot
    {
      Written(toClient.written, toBackend.written, slot.target)
    }

    /** One message to the client: a key is captured and replaced, anything else goes as it came. */
    method Forward(f: Message, issued: Option<seq<byte>>, ghost w0: Written, ghost seen: seq<seq<byte>>,
                   ghost answers: seq<seq<byte>>)
      requires Apart() && Sent(w0, Output(), seen, answers, issued)
      modifies toClient, slot
      ensures Sent(w0, Output(), seen + [f], answers, issued)
    {
      SentOneMore(w0, Output(), seen, answers, issued, f);
      if f[0] == BACKEND_KEY_DATA && issued.Some? {
        slot.Set(Payload(f));
        toClient.Write(Frame(BACKEND_KEY_DATA, issued.value));
      } else {
        toClient.Write(f);
      }
    }

    /** One client message to the backend, in answer to a challenge. */
    method Answer(pace: nat -> nat, ghost c0: seq<byte>, ghost w0: Written, ghost seen: seq<seq<byte>>,
                  ghost answers: seq<seq<byte>>, ghost issued: Option<seq<byte>>)
      returns (ok: bool, ghost answers': seq<seq<byte>>)
      requires Apart() && ReadSoFar(c0, answers, client.unread) && Sent(w0, Output(), seen, answers, issued)
      modifies client, toBackend
      ensures Sent(w0, Output(), seen, answers', issued)
      ensures if ok then ReadSoFar(c0, answers', client.unread) && |answers'| == |answers| + 1
              else answers' == answers == Messages(c0) && RanOut(old(client.unread), client.unread)
    {
      ghost var pending, w := client.unread, Output();
      NextMessage(pending);
      var response := ReadMessageCapped(client, MAX_MESSAGE_LEN, pace);
      if !response.Got? {
        return false, answers;
      }
      toBackend.Write(response.value);
      ReadOneMore(c0, answers, pending);
      AnsweredOneMore(w0, w, seen, answers, issued, response.value);
      return true, answers + [response.value];
    }

    /** One backend message, and the client's answer if it asks for one. */
    method RelayOne(issued: Option<seq<byte>>, interactive: bool, pace: nat -> nat, ghost b0: seq<byte>, ghost c0: seq<byte>,
                    ghost w0: Written, ghost seen: seq<seq<byte>>, ghost answers: seq<seq<byte>>)
      returns (more: bool, how: Ending, ghost seen': seq<seq<byte>>, ghost answers': seq<seq<byte>>)
      requires Apart() && Progress(b0, backend.unread, c0, client.unread, seen, answers, interactive)
      requires Sent(w0, Output(), seen, answers, issued)
      modifies client, toClient, backend, toBackend, slot
      ensures Sent(w0, Output(), seen', answers', issued)
      ensures more ==> Progress(b0, backend.unread, c0, client.unread, seen', answers', interactive)
                       && |backend.unread| < |old(backend.unread)|
      ensures !more ==> Finished(b0, backend.unread, c0, client.unread, seen', answers', interactive, how)
    {
      seen', answers', how := seen, answers, ClientGone;
      ghost var left := backend.unread;
      NextMessage(left);
      var msg := ReadMessageCapped(backend, MAX_MESSAGE_LEN, pace);
      if !msg.Got? {
        NoGreeting(b0, c0, interactive, seen, left);
        assert RanOut(left, backend.unread);
        return false, BackendGone, seen', answers';
      }
      var f := msg.value;
      var subtype := AuthSubtype(f);
      if Tag(f) == AUTHENTICATION && (subtype.None? || (subtype.value != AUTH_OK && !interactive)) {
        StopsUnsupported(b0, backend.unread, c0, client.unread, seen, answers, interactive, left, f);
        return false, Unsupported, seen', answers';
      }
      more, how, answers' := RelayMessage(f, issued, pace, b0, c0, w0, seen, answers, interactive, left);
      seen' := seen + [f];
    }

    /** A backend message that can be relayed, and the client's answer if it asks for one. */
    method RelayMessage(f: Message, issued: Option<seq<byte>>, pace: nat -> nat, ghost b0: seq<byte>, ghost c0: seq<byte>,
                        ghost w0: Written, ghost seen: seq<seq<byte>>, ghost answers: seq<seq<byte>>, ghost interactive: bool,
                        ghost left: seq<byte>)
      returns (more: bool, how: Ending, ghost answers': seq<seq<byte>>)
      requires Apart() && Progress(b0, left, c0, client.unread, seen, answers, interactive)
      requires ParseOne(left, MAX_MESSAGE_LEN) == Complete(f, backend.unread) && Sent(w0, Output(), seen, answers, issued)
      requires f[0] == AUTHENTICATION ==> Passes(f, interactive)
      modifies client, toClient, toBackend, slot
      ensures Sent(w0, Output(), seen + [f], answers', issued)
      ensures more ==> Progress(b0, backend.unread, c0, client.unread, seen + [f], answers', interactive)
      ensures !more ==> Finished(b0, backend.unread, c0, client.unread, seen + [f], answers', interactive, how)
    {
      answers', how := answers, ClientGone;
      Forward(f, issued, w0, seen, answers);
      Advance(b0, left, seen, interactive, f, backend.unread);
      if Tag(f) == READY_FOR_QUERY {
        Ends(b0, c0, interactive, seen, backend.unread, f);
        return false, Completed, answers';
      }
      if Tag(f) == ERROR_RESPONSE {
        StopsAtError(b0, backend.unread, c0, client.unread, seen, answers, interactive, left, f);
        return false, BackendError, answers';
      }
      more := true;
      var subtype := AuthSubtype(f);
      if Tag(f) == AUTHENTICATION && subtype.value != AUTH_OK && subtype.value != AUTH_SASL_FINAL {
        more, answers' := Answer(pace, c0, w0, seen + [f], answers, issued);
        if !more {
          NoAnswer(b0, c0, interactive, seen + [f], backend.unread);
        }
      }
    }

    /** `relay_startup`. Startup completes exactly when the backend's messages start with a greeting and the client has
        answered each of its challenges; in every case the client has been sent exactly the messages in `seen`, each
        with its key substituted, the backend exactly the messages in `answers`, one a challenge, nothing later
        was read, and the slot holds the last key captured. */
    method RelayStartup(issued: Option<seq<byte>>, interactive: bool, pace: nat -> nat)
      returns (how: Ending, ghost seen: seq<seq<byte>>, ghost answers: seq<seq<byte>>)
      requires Apart()
      modifies client, toClient, backend, toBackend, slot
      ensures Finished(old(backend.unread), backend.unread, old(client.unread), client.unread, seen, answers, interactive, how)
      ensures Sent(old(Output()), Output(), seen, answers, issued)
    {
      ghost var b0, c0 := backend.unread, client.unread;
      ghost var w0 := Output();
      how, seen, answers := ClientGone, [], [];
      Begins(b0, c0, w0, issued, interactive);
      var more := true;
      while more
        invariant Sent(w0, Output(), seen, answers, issued)
        invariant more ==> Progress(b0, backend.unread, c0, client.unread, seen, answers, interactive)
        invariant !more ==> Finished(b0, backend.unread, c0, client.unread, seen, answers, interactive, how)
        decreases more, |backend.unread|
      {
        more, how, seen, answers := RelayOne(issued, interactive, pace, b0, c0, w0, seen, answers);
      }
    }
  }
}
