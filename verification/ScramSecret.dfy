/** Verifiers and their text, `SCRAM-SHA-256$<iterations>:<salt>$<StoredKey>:<ServerKey>` (src/scram/secret.rs). */
module ScramSecret {
  import opened Bytes
  import opened Text
  import opened ScramCrypto
  import Base64

  type u32 = n: nat | n < TWO32

  datatype Secret = Secret(iterations: u32, salt: seq<byte>, storedKey: Digest, serverKey: Digest)

  const PREFIX := Ascii("SCRAM-SHA-256$")
  const DOLLAR: byte := 36
  const COLON: byte := 58

  /** `decode_key` */
  function DecodeKey(s: seq<byte>): (k: Option<Digest>) {
    var b := Base64.Decode(s);
    if b.Some? && |b.value| == 32 then Some(b.value) else None
  }

  /** `ScramSecret::parse` */
  function Parse(s: seq<byte>): Option<Secret> {
    var rest := StripPrefix(s, PREFIX);
    if rest.None? then None
    else
      var sections := SplitOnce(rest.value, DOLLAR);
      if sections.None? then None
      else
        var params, keys := SplitOnce(sections.value.0, COLON), SplitOnce(sections.value.1, COLON);
        if params.None? || keys.None? then None
        else
          var iterations, salt := ParseU32(params.value.0), Base64.Decode(params.value.1);
          var stored, server := DecodeKey(keys.value.0), DecodeKey(keys.value.1);
          if iterations.None? || salt.None? || stored.None? || server.None? then None
          else Some(Secret(iterations.value, salt.value, stored.value, server.value))
  }

  /** A verifier written with `number` for its iteration count. */
  function Layout(number: seq<byte>, s: Secret): seq<byte> {
    PREFIX + ((number + [COLON] + Base64.Encode(s.salt)) + [DOLLAR]
              + (Base64.Encode(s.storedKey) + [COLON] + Base64.Encode(s.serverKey)))
  }

  /** `to_verifier_string` */
  function ToText(s: Secret): seq<byte> {
    Layout(PrintNat(s.iterations), s)
  }

  function FromPassword(h: Hash, password: seq<byte>, salt: seq<byte>, iterations: u32): Secret {
    var keys := ScramCrypto.FromPassword(h, password, salt, iterations);
    Secret(iterations, salt, keys.stored, keys.server)
  }

  /** What parses to a verifier: its layout, with any accepted numeral for the iteration count, and nothing else. */
  lemma ParsesExactly(t: seq<byte>, s: Secret)
    ensures Parse(t) == Some(s) <==> exists number :: ParseU32(number) == Some(s.iterations) && t == Layout(number, s)
  {
    if Parse(t) == Some(s) {
      ParsedLayout(t, s);
    }
    forall number | ParseU32(number) == Some(s.iterations) && t == Layout(number, s)
      ensures Parse(t) == Some(s)
    {
      LayoutParses(number, s);
    }
  }

  lemma ParsedLayout(t: seq<byte>, s: Secret)
    requires Parse(t) == Some(s)
    ensures exists number :: ParseU32(number) == Some(s.iterations) && t == Layout(number, s)
  {
    var rest := t[|PREFIX|..];
    var (params, keys) := SplitOnce(rest, DOLLAR).value;
    var (number, salt) := SplitOnce(params, COLON).value;
    var (stored, server) := SplitOnce(keys, COLON).value;
    SplitOnceAt(rest, DOLLAR, params, keys);
    SplitOnceAt(params, COLON, number, salt);
    SplitOnceAt(keys, COLON, stored, server);
    Base64.Base64RoundTrip(salt, s.salt);
    Base64.Base64RoundTrip(stored, s.storedKey);
    Base64.Base64RoundTrip(server, s.serverKey);
    FieldsJoin(t, rest, params, keys, number, salt, stored, server);
    assert ParseU32(number) == Some(s.iterations) && t == Layout(number, s);
  }

  lemma FieldsJoin(t: seq<byte>, rest: seq<byte>, params: seq<byte>, keys: seq<byte>, number: seq<byte>, salt: seq<byte>,
                   stored: seq<byte>, server: seq<byte>)
    requires PREFIX <= t && rest == t[|PREFIX|..] && rest == params + [DOLLAR] + keys
    requires params == number + [COLON] + salt && keys == stored + [COLON] + server
    ensures t == PREFIX + ((number + [COLON] + salt) + [DOLLAR] + (stored + [COLON] + server))
  {
  }

  lemma NumeralCharacters(number: seq<byte>)
    requires ParseU32(number).Some?
    ensures COLON !in number && DOLLAR !in number
  {
    var digits := if |number| > 1 && number[0] == 43 then number[1..] else number;
    forall i | 0 <= i < |number|
      ensures number[i] != COLON && number[i] != DOLLAR
    {
      if |number| > 1 && number[0] == 43 && i > 0 {
        assert number[i] == digits[i - 1];
      }
    }
  }

  lemma FieldsSplit(number: seq<byte>, salt: seq<byte>, stored: seq<byte>, server: seq<byte>)
    requires COLON !in number && DOLLAR !in number && DOLLAR !in salt && COLON !in stored
    ensures var params, keys := number + [COLON] + salt, stored + [COLON] + server;
      && SplitOnce(params + [DOLLAR] + keys, DOLLAR) == Some((params, keys))
      && SplitOnce(params, COLON) == Some((number, salt)) && SplitOnce(keys, COLON) == Some((stored, server))
  {
    var params, keys := number + [COLON] + salt, stored + [COLON] + server;
    assert DOLLAR !in params;
    SplitOnceAt(params + [DOLLAR] + keys, DOLLAR, params, keys);
    SplitOnceAt(params, COLON, number, salt);
    SplitOnceAt(keys, COLON, stored, server);
  }

  lemma LayoutParses(number: seq<byte>, s: Secret)
    requires ParseU32(number) == Some(s.iterations)
    ensures Parse(Layout(number, s)) == Some(s)
  {
    var salt, stored, server := Base64.Encode(s.salt), Base64.Encode(s.storedKey), Base64.Encode(s.serverKey);
    Base64.EncodeIsText(s.salt);
    Base64.EncodeIsText(s.storedKey);
    NumeralCharacters(number);
    FieldsSplit(number, salt, stored, server);
    Base64.Base64RoundTrip(salt, s.salt);
    Base64.Base64RoundTrip(stored, s.storedKey);
    Base64.Base64RoundTrip(server, s.serverKey);
    LayoutTail(PREFIX, number + [COLON] + salt + [DOLLAR] + (stored + [COLON] + server));
  }

  lemma LayoutTail(prefix: seq<byte>, rest: seq<byte>)
    ensures StripPrefix(prefix + rest, prefix) == Some(rest)
  {
  }

  /** Round trip: every verifier survives its own text. */
  lemma VerifierRoundTrip(s: Secret)
    ensures Parse(ToText(s)) == Some(s)
  {
    DecimalRoundTrip(s.iterations);
    LayoutParses(PrintNat(s.iterations), s);
  }

  /** Printing a parsed text gives the text back exactly when its iteration count was written the way it is
      printed, with no sign and no leading zero. */
  lemma ReprintsWhenCanonical(t: seq<byte>, s: Secret)
    requires Parse(t) == Some(s)
    ensures ToText(s) == t <==> PrintNat(s.iterations) + [COLON] <= t[|PREFIX|..]
  {
    ParsedLayout(t, s);
    var number :| ParseU32(number) == Some(s.iterations) && t == Layout(number, s);
    var printed := PrintNat(s.iterations);
    DecimalRoundTrip(s.iterations);
    NumeralCharacters(number);
    NumeralCharacters(printed);
    LayoutHead(number, s);
    LayoutHead(printed, s);
    if printed + [COLON] <= t[|PREFIX|..] {
      SameHead(number, printed, t[|PREFIX|..]);
    }
  }

  lemma LayoutHead(number: seq<byte>, s: Secret)
    ensures |Layout(number, s)| >= |PREFIX| && number + [COLON] <= Layout(number, s)[|PREFIX|..]
  {
  }

  lemma SameHead(a: seq<byte>, b: seq<byte>, s: seq<byte>)
    requires COLON !in a && COLON !in b && a + [COLON] <= s && b + [COLON] <= s
    ensures a == b
  {
    SplitOnceAt(s, COLON, a, s[|a| + 1..]);
    SplitOnceAt(s, COLON, b, s[|b| + 1..]);
    assert s == a + [COLON] + s[|a| + 1..] == b + [COLON] + s[|b| + 1..];
  }
}
