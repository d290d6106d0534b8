/** The SASL messages of both sides (src/scram/mod.rs, src/scram/client.rs, src/protocol/message.rs): builders, parsers,
    and what exactly the parsers accept. */
module ScramMessages {
  import opened Bytes
  import opened Text
  import opened Codec
  import opened ScramCrypto
  import Base64

  const MECHANISM := Ascii("SCRAM-SHA-256")
  const MECHANISM_PLUS := Ascii("SCRAM-SHA-256-PLUS")
  const CB_TYPE := Ascii("tls-server-end-point")
  const R := 114
  const S := 115
  const I := 105
  const C := 99
  const V := 118
  const N := 110
  const EQ := 61

  /** `,p=` */
  const COMMA_P: seq<byte> := [COMMA, 112, EQ]

  const AUTH_SASL := 10
  const AUTH_SASL_CONTINUE := 11
  const AUTH_SASL_FINAL := 12

  // ---------------------------------------------------------------------------------------------
  // Server to client

  function CStrings(names: seq<seq<byte>>): (b: seq<byte>) {
    if names == [] then [0] else names[0] + [0] + CStrings(names[1..])
  }

  /** `authentication_sasl` */
  function AuthenticationSasl(mechanisms: seq<seq<byte>>): seq<byte> {
    Frame(AUTHENTICATION, PutI32(AUTH_SASL) + CStrings(mechanisms))
  }

  method BuildAuthenticationSasl(mechanisms: seq<seq<byte>>) returns (frame: seq<byte>)
    ensures frame == AuthenticationSasl(mechanisms)
  {
    var body := PutI32(AUTH_SASL);
    for i := 0 to |mechanisms|
      invariant body + CStrings(mechanisms[i..]) == PutI32(AUTH_SASL) + CStrings(mechanisms)
    {
      assert mechanisms[i..][1..] == mechanisms[i + 1..];
      ghost var was := body;
      body := body + mechanisms[i] + [0];
      assert was + CStrings(mechanisms[i..]) == body + CStrings(mechanisms[i + 1..]);
    }
    assert mechanisms[|mechanisms|..] == [];
    frame := Frame(AUTHENTICATION, body + [0]);
  }

  /** `sasl_message` */
  function SaslMessage(subtype: int, data: seq<byte>): seq<byte> {
    Frame(AUTHENTICATION, PutI32(subtype) + data)
  }

  /** `expect_auth`, on a whole frame. */
  predicate IsAuth(frame: seq<byte>, subtype: int)
    requires |frame| >= 5
  {
    Tag(frame) == AUTHENTICATION && |Payload(frame)| >= 4 && ReadI32(Payload(frame)[..4]) == subtype
  }

  /** Exactly the frames `sasl_message` builds, up to the length field. */
  lemma IsAuthExactly(frame: seq<byte>, subtype: int)
    requires |frame| >= 5 && -TWO31 <= subtype < TWO31
    ensures IsAuth(frame, subtype) <==>
              Tag(frame) == AUTHENTICATION && exists data :: Payload(frame) == PutI32(subtype) + data
  {
    var payload := Payload(frame);
    if IsAuth(frame, subtype) {
      I32RoundTripBack(payload[..4]);
      assert payload == PutI32(subtype) + payload[4..];
    }
    forall data | payload == PutI32(subtype) + data
      ensures |payload| >= 4 && ReadI32(payload[..4]) == subtype
    {
      I32RoundTrip(subtype, []);
      assert payload[..4] == PutI32(subtype) + [];
    }
  }

  /** The names before the first empty or unterminated one; those that are not UTF-8 are skipped. */
  function Mechanisms(data: seq<byte>): (names: seq<seq<byte>>)
    decreases |data|
  {
    var nul := IndexOf(data, 0);
    if nul == |data| || nul == 0 then []
    else (if ValidUtf8(data[..nul]) then [data[..nul]] else []) + Mechanisms(data[nul + 1..])
  }

  /** `parse_mechanisms` */
  method ParseMechanisms(data: seq<byte>) returns (names: seq<seq<byte>>)
    ensures names == Mechanisms(data)
  {
    var left := data;
    names := [];
    var nul := IndexOf(left, 0);
    while nul < |left| && nul != 0
      invariant nul == IndexOf(left, 0)
      invariant names + Mechanisms(left) == Mechanisms(data)
      decreases |left|
    {
      AssocAll(names, if ValidUtf8(left[..nul]) then [left[..nul]] else [], Mechanisms(left[nul + 1..]));
      assert names + [] == names;
      if ValidUtf8(left[..nul]) {
        names := names + [left[..nul]];
      }
      left := left[nul + 1..];
      nul := IndexOf(left, 0);
    }
  }

  /** It reads back any list of non-empty UTF-8 names. */
  lemma {:induction false} MechanismsRoundTrip(names: seq<seq<byte>>, rest: seq<byte>)
    requires forall i :: 0 <= i < |names| ==> names[i] != [] && 0 !in names[i] && ValidUtf8(names[i])
    ensures Mechanisms(CStrings(names) + rest) == names
    decreases |names|
  {
    var data := CStrings(names) + rest;
    if names == [] {
      assert data[0] == 0;
    } else {
      var tail := CStrings(names[1..]) + rest;
      MechanismsRoundTrip(names[1..], rest);
      HeadName(names[0], tail);
      Assoc(names[0] + [0], CStrings(names[1..]), rest);
      assert [names[0]] + names[1..] == names;
    }
  }

  lemma HeadName(name: seq<byte>, tail: seq<byte>)
    requires name != [] && 0 !in name && ValidUtf8(name)
    ensures Mechanisms(name + [0] + tail) == [name] + Mechanisms(tail)
  {
    IndexOfAfter(name, 0, tail);
    assert (name + [0] + tail)[..|name|] == name && (name + [0] + tail)[|name| + 1..] == tail;
  }

  // ---------------------------------------------------------------------------------------------
  // Client to server

  /** `sasl_initial_response` */
  function SaslInitialResponse(mechanism: seq<byte>, response: seq<byte>): seq<byte> {
    Frame(PASSWORD_MESSAGE, mechanism + [0] + PutI32(|response|) + response)
  }

  /** `sasl_response` */
  function SaslResponse(data: seq<byte>): seq<byte> {
    Frame(PASSWORD_MESSAGE, data)
  }

  /** `parse_sasl_initial`; the four length bytes are not looked at. */
  function ParseSaslInitial(payload: seq<byte>): Option<(seq<byte>, seq<byte>)> {
    var nul := IndexOf(payload, 0);
    if nul == |payload| || !ValidUtf8(payload[..nul]) then None
    else
      var rest := payload[nul + 1..];
      if |rest| < 4 then None else Some((payload[..nul], rest[4..]))
  }

  lemma SaslInitialExactly(payload: seq<byte>, mechanism: seq<byte>, response: seq<byte>)
    ensures ParseSaslInitial(payload) == Some((mechanism, response)) <==>
              0 !in mechanism && ValidUtf8(mechanism)
              && exists length :: |length| == 4 && payload == mechanism + [0] + length + response
  {
    if ParseSaslInitial(payload) == Some((mechanism, response)) {
      var length := payload[|mechanism| + 1..][..4];
      assert payload == mechanism + [0] + length + response;
    }
    forall length: seq<byte> | 0 !in mechanism && ValidUtf8(mechanism) && |length| == 4
                               && payload == mechanism + [0] + length + response
      ensures ParseSaslInitial(payload) == Some((mechanism, response))
    {
      assert payload == mechanism + [0] + (length + response);
      IndexOfAfter(mechanism, 0, length + response);
      assert payload[..|mechanism|] == mechanism;
      assert payload[|mechanism| + 1..] == length + response;
      assert (length + response)[4..] == response;
    }
  }

  /** The GS2 channel-binding flag. */
  datatype Flag = Binding(name: seq<byte>) | Supports | Unbound

  datatype ClientFirst = ClientFirst(gs2Header: seq<byte>, bare: seq<byte>, nonce: seq<byte>, flag: Flag)

  /** `p=<name>`, `y` or `n` */
  function ParseFlag(s: seq<byte>): Option<Flag> {
    if [112, EQ] <= s then Some(Binding(s[2..]))
    else if s == [121] then Some(Supports)
    else if s == [N] then Some(Unbound)
    else None
  }

  /** `parse_client_first` */
  function ParseClientFirst(data: seq<byte>): Option<ClientFirst> {
    if !ValidUtf8(data) then None
    else
      var flagged := SplitOnce(data, COMMA);
      if flagged.None? then None
      else
        var flag := ParseFlag(flagged.value.0);
        if flag.None? then None
        else
          var named := SplitOnce(flagged.value.1, COMMA);
          if named.None? then None
          else
            var bare := named.value.1;
            var nonce := FirstAttr(bare, [R, EQ]);
            if nonce.None? then None
            else Some(ClientFirst(data[..|data| - |bare|], bare, nonce.value, flag.value))
  }

  /** A GS2 header: flag, optional authorization identity. */
  function Gs2Header(flag: seq<byte>, authzid: seq<byte>): seq<byte> {
    flag + [COMMA] + authzid + [COMMA]
  }

  lemma ClientFirstExactly(data: seq<byte>, first: ClientFirst)
    ensures ParseClientFirst(data) == Some(first) <==>
              && ValidUtf8(data) && data == first.gs2Header + first.bare && FirstAttr(first.bare, [R, EQ]) == Some(first.nonce)
              && exists flag, authzid :: HeaderOf(first, flag, authzid)
  {
    if ParseClientFirst(data) == Some(first) {
      ClientFirstParsed(data);
    }
    forall flag, authzid | ValidUtf8(data) && data == first.gs2Header + first.bare
                           && FirstAttr(first.bare, [R, EQ]) == Some(first.nonce) && HeaderOf(first, flag, authzid)
      ensures ParseClientFirst(data) == Some(first)
    {
      ClientFirstPrinted(first, flag, authzid);
    }
  }

  predicate HeaderOf(first: ClientFirst, flag: seq<byte>, authzid: seq<byte>) {
    && COMMA !in flag && COMMA !in authzid
    && first.gs2Header == Gs2Header(flag, authzid) && ParseFlag(flag) == Some(first.flag)
  }

  lemma ClientFirstParsed(data: seq<byte>)
    requires ParseClientFirst(data).Some?
    ensures var first := ParseClientFirst(data).value;
      data == first.gs2Header + first.bare && exists flag, authzid :: HeaderOf(first, flag, authzid)
  {
    var first := ParseClientFirst(data).value;
    var (flag, rest) := SplitOnce(data, COMMA).value;
    var (authzid, bare) := SplitOnce(rest, COMMA).value;
    SplitOnceAt(data, COMMA, flag, rest);
    SplitOnceAt(rest, COMMA, authzid, bare);
    HeaderJoins(data, flag, rest, authzid, bare);
    assert HeaderOf(first, flag, authzid);
  }

  lemma HeaderJoins(data: seq<byte>, flag: seq<byte>, rest: seq<byte>, authzid: seq<byte>, bare: seq<byte>)
    requires data == flag + [COMMA] + rest && rest == authzid + [COMMA] + bare
    ensures data == Gs2Header(flag, authzid) + bare && data[..|data| - |bare|] == Gs2Header(flag, authzid)
  {
  }

  lemma ClientFirstPrinted(first: ClientFirst, flag: seq<byte>, authzid: seq<byte>)
    requires ValidUtf8(first.gs2Header + first.bare) && FirstAttr(first.bare, [R, EQ]) == Some(first.nonce)
    requires HeaderOf(first, flag, authzid)
    ensures ParseClientFirst(first.gs2Header + first.bare) == Some(first)
  {
    HeaderSplits(flag, authzid, first.bare);
  }

  lemma HeaderSplits(flag: seq<byte>, authzid: seq<byte>, bare: seq<byte>)
    requires COMMA !in flag && COMMA !in authzid
    ensures var header, rest := Gs2Header(flag, authzid), authzid + [COMMA] + bare;
      && SplitOnce(header + bare, COMMA) == Some((flag, rest)) && SplitOnce(rest, COMMA) == Some((authzid, bare))
      && (header + bare)[..|header + bare| - |bare|] == header
  {
    var header, rest := Gs2Header(flag, authzid), authzid + [COMMA] + bare;
    assert header + bare == flag + [COMMA] + rest;
    SplitOnceAt(header + bare, COMMA, flag, rest);
    SplitOnceAt(rest, COMMA, authzid, bare);
  }

  datatype ClientFinal = ClientFinal(channelBinding: seq<byte>, nonce: seq<byte>, proof: seq<byte>, withoutProof: seq<byte>)

  function FinalOf(s: seq<byte>): Option<ClientFinal> {
    var at := LastIndexOf(s, COMMA_P);
    if at.None? then None
    else
      var withoutProof := s[..at.value];
      var c, r := LastAttr(withoutProof, [C, EQ]), LastAttr(withoutProof, [R, EQ]);
      if c.None? || r.None? then None
      else Some(ClientFinal(c.value, r.value, s[at.value + 3..], withoutProof))
  }

  /** `parse_client_final`: the loop keeps the last of each attribute. */
  method ParseClientFinal(s: seq<byte>) returns (r: Option<ClientFinal>)
    ensures r == FinalOf(s)
  {
    var at := LastIndexOf(s, COMMA_P);
    if at.None? {
      return None;
    }
    var withoutProof := s[..at.value];
    var channelBinding: Option<seq<byte>>, nonce: Option<seq<byte>> := None, None;
    var left, more := withoutProof, true;
    while more
      invariant more ==> Either(LastAttr(left, [C, EQ]), channelBinding) == LastAttr(withoutProof, [C, EQ])
      invariant more ==> Either(LastAttr(left, [R, EQ]), nonce) == LastAttr(withoutProof, [R, EQ])
      invariant !more ==> channelBinding == LastAttr(withoutProof, [C, EQ]) && nonce == LastAttr(withoutProof, [R, EQ])
      decreases |left|, more
    {
      var end := IndexOf(left, COMMA);
      var field := left[..end];
      if StripPrefix(field, [C, EQ]).Some? {
        channelBinding := StripPrefix(field, [C, EQ]);
        assert field[0] == 99 && StripPrefix(field, [R, EQ]).None?;
      } else if StripPrefix(field, [R, EQ]).Some? {
        nonce := StripPrefix(field, [R, EQ]);
      }
      if end == |left| {
        more := false;
      } else {
        left := left[end + 1..];
      }
    }
    if channelBinding.None? || nonce.None? {
      return None;
    }
    r := Some(ClientFinal(channelBinding.value, nonce.value, s[at.value + 3..], withoutProof));
  }

  function Either(a: Option<seq<byte>>, b: Option<seq<byte>>): Option<seq<byte>> {
    if a.Some? then a else b
  }

  /** The proof is what follows the last `,p=`; everything before it is what the AuthMessage repeats. */
  lemma ClientFinalExactly(s: seq<byte>, f: ClientFinal)
    ensures FinalOf(s) == Some(f) <==>
              && s == f.withoutProof + COMMA_P + f.proof
              && (forall j: nat :: OccursAt(s, COMMA_P, j) ==> j <= |f.withoutProof|)
              && LastAttr(f.withoutProof, [C, EQ]) == Some(f.channelBinding) && LastAttr(f.withoutProof, [R, EQ]) == Some(f.nonce)
  {
    var at := LastIndexOf(s, COMMA_P);
    if FinalOf(s) == Some(f) {
      assert s[at.value..at.value + 3] == COMMA_P;
      assert s == f.withoutProof + COMMA_P + f.proof;
    }
    if s == f.withoutProof + COMMA_P + f.proof {
      var n := |f.withoutProof|;
      assert s[n..n + 3] == COMMA_P;
      assert OccursAt(s, COMMA_P, n);
      assert s[..n] == f.withoutProof && s[n + 3..] == f.proof;
    }
  }

  // ---------------------------------------------------------------------------------------------
  // Shared text

  /** The server-first-message for a nonce, salt and iteration count. */
  function ServerFirst(nonce: seq<byte>, salt: seq<byte>, iterations: nat): seq<byte> {
    Attr(R, nonce) + [COMMA] + (Attr(S, Base64.Encode(salt)) + [COMMA] + Attr(I, PrintNat(iterations)))
  }

  /** AuthMessage (section 3 of RFC 5802). */
  function AuthMessage(clientFirstBare: seq<byte>, serverFirst: seq<byte>, withoutProof: seq<byte>): seq<byte> {
    clientFirstBare + [COMMA] + serverFirst + [COMMA] + withoutProof
  }
}
