/**
 The signed state token of the OAuth handshake: canonical JSON, unpadded base64url and a message
 authentication code.  Two decoders read it: verification, and the callback's unverified look at
 the payload that chooses which tenant to verify against.

 HMAC-SHA256 is an uninterpreted function of key and message.  `toInt` is Python's int() on text.
 */
module StateToken {
  import opened Wrappers
  import opened Envelope
  import opened Base64Url
  import opened Json
  import Decimal

  const STATE_KEY_BYTES: nat := 32
  const NONCE_BYTES: nat := 24

  type Key = k: Bytes | |k| == STATE_KEY_BYTES witness seq(STATE_KEY_BYTES, _ => 0)
  type Mac = (Key, Bytes) -> Bytes
  type ToInt = string -> Option<int>

  datatype StateError = ConfigError | Malformed | BadSignature | TenantMismatch | Expired | NotAnInteger

  datatype Claims = Claims(tenant: string, nonce: string, issuedAt: int, expiresAt: int, returnPath: string)

  datatype Issued = Issued(token: string, nonce: string)

  // ------------------------------------------------------------------
  // Issue
  // ------------------------------------------------------------------

  /** The payload's members, sorted by name. */
  function Members(c: Claims): seq<Member> {
    [Member("exp", JInt(c.expiresAt)), Member("iat", JInt(c.issuedAt)), Member("n", JString(c.nonce)),
     Member("rp", JString(c.returnPath)), Member("tid", JString(c.tenant))]
  }

  function PayloadText(c: Claims): string { PrintObject(Members(c)) }

  function Payload(c: Claims): Bytes {
    ObjectPrintable(Members(c));
    AsciiBytes(PayloadText(c))
  }

  function Sign(mac: Mac, key: Key, payload: Bytes): string {
    Encode(payload) + "." + Encode(mac(key, payload))
  }

  function MakeState(mac: Mac, key: Key, tenant: string, returnPath: string, ttl: int, now: int,
                     random: Bytes): Result<Issued, StateError>
    requires |random| == NONCE_BYTES
  {
    if tenant == "" then Err(StateError.ConfigError)
    else
      var nonce := Encode(random);
      Ok(Issued(Sign(mac, key, Payload(Claims(tenant, nonce, now, now + ttl, returnPath))), nonce))
  }

  // ------------------------------------------------------------------
  // Verify
  // ------------------------------------------------------------------

  function SplitDots(s: string): (parts: seq<string>)
    ensures |parts| >= 1
  {
    if s == "" then [""]
    else
      var parts := SplitDots(s[1..]);
      if s[0] == '.' then [""] + parts else [[s[0]] + parts[0]] + parts[1..]
  }

  function ParsePayload(payload: Bytes): Option<map<string, Value>> {
    match AsciiText(payload)
    case None => None
    case Some(text) => ParseObject(text)
  }

  function IntOf(v: Value, toInt: ToInt): Option<int> {
    match v
    case JInt(i) => Some(i)
    case JString(t) => toInt(t)
  }

  /** The payload bytes of a token whose shape and signature are right. */
  function Authenticate(mac: Mac, key: Key, token: string): Result<Bytes, StateError> {
    var parts := SplitDots(token);
    if token == "" || |parts| != 2 then Err(Malformed)
    else
      match Decode(parts[0])
      case None => Err(Malformed)
      case Some(payload) =>
        match Decode(parts[1])
        case None => Err(Malformed)
        case Some(sig) => if sig == mac(key, payload) then Ok(payload) else Err(BadSignature)
  }

  predicate HasAllClaims(o: map<string, Value>) {
    "tid" in o && "n" in o && "iat" in o && "exp" in o && "rp" in o
  }

  /** The checks on a payload object whose signature was right, in order. */
  function CheckClaims(o: map<string, Value>, expected: string, now: int, toInt: ToInt): Result<Claims, StateError> {
    if !HasAllClaims(o) then Err(Malformed)
    else if o["tid"].Text() != expected then Err(TenantMismatch)
    else
      match IntOf(o["exp"], toInt)
      case None => Err(NotAnInteger)
      case Some(exp) =>
        if now >= exp then Err(Expired)
        else
          match IntOf(o["iat"], toInt)
          case None => Err(NotAnInteger)
          case Some(iat) => Ok(Claims(o["tid"].Text(), o["n"].Text(), iat, exp, o["rp"].Text()))
  }

  function VerifyState(mac: Mac, key: Key, token: string, expected: string, now: int,
                       toInt: ToInt): Result<Claims, StateError>
  {
    match Authenticate(mac, key, token)
    case Err(e) => Err(e)
    case Ok(payload) =>
      match ParsePayload(payload)
      case None => Err(Malformed)
      case Some(o) => CheckClaims(o, expected, now, toInt)
  }

  // ------------------------------------------------------------------
  // The callback's own decoder
  // ------------------------------------------------------------------

  function UpToDot(s: string): string {
    if s == "" || s[0] == '.' then "" else [s[0]] + UpToDot(s[1..])
  }

  datatype Attribution = Attribution(tenant: Value, nonce: Value)

  function Attribute(o: map<string, Value>): Option<Attribution> {
    if "tid" in o && "n" in o then Some(Attribution(o["tid"], o["n"])) else None
  }

  /** Reads the payload without its signature; the lenient base64 decoder, two claims required. */
  function DecodeUnverified(token: string): Option<Attribution> {
    if '.' !in token then None
    else
      match StdDecode(UpToDot(token))
      case None => None
      case Some(payload) =>
        match ParsePayload(payload)
        case None => None
        case Some(o) => Attribute(o)
  }

  /** The callback's gate: verify against the tenant the token itself names. */
  function CallbackGate(mac: Mac, key: Key, token: string, now: int, toInt: ToInt): Result<Claims, StateError> {
    match DecodeUnverified(token)
    case None => Err(Malformed)
    case Some(seen) => VerifyState(mac, key, token, seen.tenant.Text(), now, toInt)
  }

  // ------------------------------------------------------------------
  // Round trip
  // ------------------------------------------------------------------

  lemma {:induction false} NoDot(s: string)
    requires '.' !in s
    ensures SplitDots(s) == [s]
  {
    if s != "" {
      NoDot(s[1..]);
      assert s == [s[0]] + s[1..];
    }
  }

  lemma {:induction false} SplitOnce(a: string, b: string)
    requires '.' !in a && '.' !in b
    ensures SplitDots(a + "." + b) == [a, b]
  {
    if a == "" {
      NoDot(b);
      assert a + "." + b == "." + b && ("." + b)[1..] == b;
    } else {
      SplitOnce(a[1..], b);
      assert (a + "." + b)[1..] == a[1..] + "." + b;
      assert a == [a[0]] + a[1..];
    }
  }

  lemma SignedAuthenticates(mac: Mac, key: Key, payload: Bytes, reader: Key)
    ensures Authenticate(mac, reader, Sign(mac, key, payload)) ==
            if mac(reader, payload) == mac(key, payload) then Ok(payload) else Err(BadSignature)
  {
    EncodeIs(payload);
    EncodeIs(mac(key, payload));
    SplitOnce(Encode(payload), Encode(mac(key, payload)));
    RoundTrip(payload);
    RoundTrip(mac(key, payload));
  }

  function ObjectOf(c: Claims): map<string, Value> {
    map["exp" := JInt(c.expiresAt), "iat" := JInt(c.issuedAt), "n" := JString(c.nonce),
        "rp" := JString(c.returnPath), "tid" := JString(c.tenant)]
  }

  lemma PayloadParses(c: Claims)
    ensures ParsePayload(Payload(c)) == Some(ObjectOf(c))
  {
    var ms := Members(c);
    ObjectPrintable(ms);
    AsciiRoundTrip(PayloadText(c));
    ObjectRead(ms);
    var e: map<string, Value> := map[];
    var m1 := e[ms[0].name := ms[0].value];
    var m2 := m1[ms[1].name := ms[1].value];
    var m3 := m2[ms[2].name := ms[2].value];
    var m4 := m3[ms[3].name := ms[3].value];
    var m5 := m4[ms[4].name := ms[4].value];
    assert Collect(ms[5..], m5) == m5;
    assert Collect(ms[4..], m4) == m5 by { assert ms[4..][1..] == ms[5..]; }
    assert Collect(ms[3..], m3) == m5 by { assert ms[3..][1..] == ms[4..]; }
    assert Collect(ms[2..], m2) == m5 by { assert ms[2..][1..] == ms[3..]; }
    assert Collect(ms[1..], m1) == m5 by { assert ms[1..][1..] == ms[2..]; }
    assert Collect(ms, e) == m5;
  }

  /** The signed bytes determine the claims. */
  lemma PayloadInjective(a: Claims, b: Claims)
    ensures Payload(a) == Payload(b) <==> a == b
  {
    PayloadParses(a);
    PayloadParses(b);
    if Payload(a) == Payload(b) { ObjectInjective(a, b); }
  }

  lemma ObjectInjective(a: Claims, b: Claims)
    requires ObjectOf(a) == ObjectOf(b)
    ensures a == b
  {
    var o, q := ObjectOf(a), ObjectOf(b);
    assert o["exp"] == q["exp"] && o["iat"] == q["iat"] && o["n"] == q["n"]
           && o["rp"] == q["rp"] && o["tid"] == q["tid"];
  }

  lemma OwnClaimsPass(c: Claims, expected: string, now: int, toInt: ToInt)
    ensures CheckClaims(ObjectOf(c), expected, now, toInt) ==
            if expected != c.tenant then Err(TenantMismatch)
            else if now >= c.expiresAt then Err(Expired)
            else Ok(c)
  {
  }

  /** What verification answers on a token signed over the claims `c`, for every reader and time. */
  lemma VerifySigned(mac: Mac, key: Key, c: Claims, reader: Key, expected: string, now: int, toInt: ToInt)
    ensures VerifyState(mac, reader, Sign(mac, key, Payload(c)), expected, now, toInt) ==
            if mac(reader, Payload(c)) != mac(key, Payload(c)) then Err(BadSignature)
            else if expected != c.tenant then Err(TenantMismatch)
            else if now >= c.expiresAt then Err(Expired)
            else Ok(c)
  {
    var token := Sign(mac, key, Payload(c));
    assert Authenticate(mac, reader, token) ==
           if mac(reader, Payload(c)) == mac(key, Payload(c)) then Ok(Payload(c)) else Err(BadSignature) by {
      SignedAuthenticates(mac, key, Payload(c), reader);
    }
    assert ParsePayload(Payload(c)) == Some(ObjectOf(c)) by { PayloadParses(c); }
    OwnClaimsPass(c, expected, now, toInt);
  }

  /** Issue then verify: the same claims come back exactly before issue time plus time to live. */
  lemma IssuedRoundTrip(mac: Mac, key: Key, tenant: string, returnPath: string, ttl: int, issued: int,
                        random: Bytes, now: int, toInt: ToInt)
    requires |random| == NONCE_BYTES && tenant != ""
    ensures var made := MakeState(mac, key, tenant, returnPath, ttl, issued, random);
            && made.Ok?
            && (now < issued + ttl <==> VerifyState(mac, key, made.value.token, tenant, now, toInt).Ok?)
            && (now < issued + ttl ==>
                VerifyState(mac, key, made.value.token, tenant, now, toInt)
                == Ok(Claims(tenant, made.value.nonce, issued, issued + ttl, returnPath)))
            && (now >= issued + ttl ==>
                VerifyState(mac, key, made.value.token, tenant, now, toInt) == Err(Expired))
  {
    VerifySigned(mac, key, Claims(tenant, Encode(random), issued, issued + ttl, returnPath), key, tenant, now, toInt);
  }

  lemma JoinShape(a: string, b: string)
    requires AllInAlphabet(a) && AllInAlphabet(b)
    ensures var t := a + "." + b;
            && multiset(t)['.'] == 1
            && forall i :: 0 <= i < |t| ==> t[i] == '.' || InAlphabet(t[i])
  {
    assert '.' !in a && '.' !in b;
    assert multiset(a)['.'] == 0 && multiset(b)['.'] == 0;
    assert multiset(a + "." + b) == multiset(a) + multiset(".") + multiset(b);
  }

  /** A token is two base64url words around its only dot, and the nonce has 32 characters. */
  lemma TokenShape(mac: Mac, key: Key, tenant: string, returnPath: string, ttl: int, issued: int, random: Bytes)
    requires |random| == NONCE_BYTES && tenant != ""
    ensures var made := MakeState(mac, key, tenant, returnPath, ttl, issued, random);
            && made.Ok?
            && multiset(made.value.token)['.'] == 1
            && (forall i :: 0 <= i < |made.value.token| ==>
                  made.value.token[i] == '.' || InAlphabet(made.value.token[i]))
            && |made.value.nonce| == 32
  {
    var payload := Payload(Claims(tenant, Encode(random), issued, issued + ttl, returnPath));
    EncodeIs(random);
    EncodeIs(payload);
    EncodeIs(mac(key, payload));
    JoinShape(Encode(payload), Encode(mac(key, payload)));
  }

  lemma {:induction false} SplitCountsDots(s: string)
    ensures |SplitDots(s)| == 1 + multiset(s)['.']
  {
    if s != "" {
      SplitCountsDots(s[1..]);
      assert s == [s[0]] + s[1..];
      assert multiset(s) == multiset{s[0]} + multiset(s[1..]);
    }
  }

  /** Nothing passes verification without exactly one dot, whoever made it. */
  lemma AcceptedHasOneDot(mac: Mac, key: Key, token: string, expected: string, now: int, toInt: ToInt)
    requires VerifyState(mac, key, token, expected, now, toInt).Ok?
    ensures multiset(token)['.'] == 1
  {
    SplitCountsDots(token);
  }

  /** Two issued tokens are the same text only if everything in them is. */
  lemma TokensDiffer(mac: Mac, key: Key, a: Claims, b: Claims)
    ensures Sign(mac, key, Payload(a)) == Sign(mac, key, Payload(b)) <==> a == b
  {
    SignedAuthenticates(mac, key, Payload(a), key);
    SignedAuthenticates(mac, key, Payload(b), key);
    PayloadInjective(a, b);
  }

  // ------------------------------------------------------------------
  // What verification answers on any text
  // ------------------------------------------------------------------

  /** Two words around the only dot, decoding to these bytes. */
  ghost predicate Reads(token: string, payload: Bytes, sig: Bytes) {
    exists a, b :: && token == a + "." + b && '.' !in a && '.' !in b
                   && Decode(a) == Some(payload) && Decode(b) == Some(sig)
  }

  /** The claims object under a right signature. */
  ghost predicate Carries(mac: Mac, key: Key, token: string, o: map<string, Value>) {
    exists payload :: Reads(token, payload, mac(key, payload)) && ParsePayload(payload) == Some(o)
  }

  ghost predicate Complete(o: map<string, Value>) { {"tid", "n", "iat", "exp", "rp"} <= o.Keys }

  predicate TextIs(v: Value, t: string) { v == JString(t) || (v.JInt? && t == Decimal.Print(v.number)) }

  predicate NumberIs(v: Value, i: int, toInt: ToInt) { v == JInt(i) || (v.JString? && toInt(v.text) == Some(i)) }

  ghost predicate Numeric(v: Value, toInt: ToInt) { exists i :: NumberIs(v, i, toInt) }

  lemma {:induction false} TwoParts(s: string)
    ensures |SplitDots(s)| == 1 ==> s == SplitDots(s)[0]
    ensures |SplitDots(s)| == 2 ==> s == SplitDots(s)[0] + "." + SplitDots(s)[1]
    ensures forall i :: 0 <= i < |SplitDots(s)| ==> '.' !in SplitDots(s)[i]
  {
    if s != "" {
      TwoParts(s[1..]);
      var parts, rest := SplitDots(s), SplitDots(s[1..]);
      assert s == [s[0]] + s[1..];
      if s[0] == '.' {
        assert parts[1..] == rest;
      } else if |rest| == 2 {
        assert parts == [[s[0]] + rest[0], rest[1]];
        assert [s[0]] + (rest[0] + "." + rest[1]) == [s[0]] + rest[0] + "." + rest[1];
      }
    }
  }

  lemma ReadsIff(token: string, payload: Bytes, sig: Bytes)
    ensures Reads(token, payload, sig) <==>
            var parts := SplitDots(token);
            |parts| == 2 && Decode(parts[0]) == Some(payload) && Decode(parts[1]) == Some(sig)
  {
    TwoParts(token);
    if Reads(token, payload, sig) {
      var a, b :| token == a + "." + b && '.' !in a && '.' !in b
                  && Decode(a) == Some(payload) && Decode(b) == Some(sig);
      SplitOnce(a, b);
    }
  }

  lemma AuthenticateIff(mac: Mac, key: Key, token: string, payload: Bytes)
    ensures Authenticate(mac, key, token) == Ok(payload) <==> Reads(token, payload, mac(key, payload))
    ensures Authenticate(mac, key, token) == Err(BadSignature) <==>
            exists p, sig :: Reads(token, p, sig) && sig != mac(key, p)
    ensures Authenticate(mac, key, token).Err? ==> Authenticate(mac, key, token).error in {Malformed, BadSignature}
  {
    ReadsIff(token, payload, mac(key, payload));
    forall p, sig ensures Reads(token, p, sig) <==>
        var parts := SplitDots(token);
        |parts| == 2 && Decode(parts[0]) == Some(p) && Decode(parts[1]) == Some(sig) {
      ReadsIff(token, p, sig);
    }
    if Authenticate(mac, key, token) == Err(BadSignature) {
      var parts := SplitDots(token);
      assert Reads(token, Decode(parts[0]).value, Decode(parts[1]).value);
    }
  }

  lemma CarriesIff(mac: Mac, key: Key, token: string, o: map<string, Value>)
    ensures Carries(mac, key, token, o) <==>
            Authenticate(mac, key, token).Ok? && ParsePayload(Authenticate(mac, key, token).value) == Some(o)
  {
    forall p ensures Authenticate(mac, key, token) == Ok(p) <==> Reads(token, p, mac(key, p)) {
      AuthenticateIff(mac, key, token, p);
    }
  }

  /** The answer to a claims object, check by check. */
  lemma ClaimsAnswer(o: map<string, Value>, expected: string, now: int, toInt: ToInt, c: Claims)
    ensures var answer := CheckClaims(o, expected, now, toInt);
            && (answer == Err(Malformed) <==> !Complete(o))
            && (answer == Err(TenantMismatch) <==> Complete(o) && !TextIs(o["tid"], expected))
            && (answer == Err(Expired) <==>
                Complete(o) && TextIs(o["tid"], expected) && exists e :: NumberIs(o["exp"], e, toInt) && now >= e)
            && (answer == Ok(c) <==>
                && Complete(o) && expected == c.tenant && now < c.expiresAt
                && TextIs(o["tid"], c.tenant) && TextIs(o["n"], c.nonce) && TextIs(o["rp"], c.returnPath)
                && NumberIs(o["exp"], c.expiresAt, toInt) && NumberIs(o["iat"], c.issuedAt, toInt))
            && (answer == Err(NotAnInteger) <==>
                && Complete(o) && TextIs(o["tid"], expected)
                && (!Numeric(o["exp"], toInt)
                    || (!Numeric(o["iat"], toInt) && exists e :: NumberIs(o["exp"], e, toInt) && now < e)))
  {
    if Complete(o) {
      NumberOf(o["exp"], toInt);
      NumberOf(o["iat"], toInt);
    }
  }

  lemma NumberOf(v: Value, toInt: ToInt)
    ensures forall i :: NumberIs(v, i, toInt) <==> IntOf(v, toInt) == Some(i)
    ensures Numeric(v, toInt) <==> IntOf(v, toInt).Some?
  {
    if IntOf(v, toInt).Some? { assert NumberIs(v, IntOf(v, toInt).value, toInt); }
  }

  /**
   For every text, whoever made it: it is accepted with these claims exactly when it is two words around
   one dot, the second the code of the first, and the first an object with the five claims that names
   the expected tenant and has not expired.
   */
  lemma AcceptedIff(mac: Mac, key: Key, token: string, expected: string, now: int, toInt: ToInt, c: Claims)
    ensures VerifyState(mac, key, token, expected, now, toInt) == Ok(c) <==>
            exists o :: && Carries(mac, key, token, o) && Complete(o) && expected == c.tenant && now < c.expiresAt
                        && TextIs(o["tid"], c.tenant) && TextIs(o["n"], c.nonce) && TextIs(o["rp"], c.returnPath)
                        && NumberIs(o["exp"], c.expiresAt, toInt) && NumberIs(o["iat"], c.issuedAt, toInt)
  {
    forall o ensures Carries(mac, key, token, o) <==>
        Authenticate(mac, key, token).Ok? && ParsePayload(Authenticate(mac, key, token).value) == Some(o) {
      CarriesIff(mac, key, token, o);
    }
    if Authenticate(mac, key, token).Ok? {
      var parsed := ParsePayload(Authenticate(mac, key, token).value);
      if parsed.Some? { ClaimsAnswer(parsed.value, expected, now, toInt, c); }
    }
  }

  /** And refused for the first check it fails: shape, code, object, tenant, time. */
  lemma RefusedBecause(mac: Mac, key: Key, token: string, expected: string, now: int, toInt: ToInt)
    ensures var answer := VerifyState(mac, key, token, expected, now, toInt);
            && (answer == Err(BadSignature) <==> exists p, sig :: Reads(token, p, sig) && sig != mac(key, p))
            && (answer == Err(TenantMismatch) <==>
                exists o :: Carries(mac, key, token, o) && Complete(o) && !TextIs(o["tid"], expected))
            && (answer == Err(Expired) <==>
                exists o, e :: && Carries(mac, key, token, o) && Complete(o) && TextIs(o["tid"], expected)
                               && NumberIs(o["exp"], e, toInt) && now >= e)
            && (answer == Err(Malformed) <==>
                && !(exists p, sig :: Reads(token, p, sig) && sig != mac(key, p))
                && !(exists o :: Carries(mac, key, token, o) && Complete(o)))
  {
    AuthenticateIff(mac, key, token, []);
    forall o ensures Carries(mac, key, token, o) <==>
        Authenticate(mac, key, token).Ok? && ParsePayload(Authenticate(mac, key, token).value) == Some(o) {
      CarriesIff(mac, key, token, o);
    }
    if Authenticate(mac, key, token).Ok? {
      var parsed := ParsePayload(Authenticate(mac, key, token).value);
      if parsed.Some? { ClaimsAnswer(parsed.value, expected, now, toInt, Claims("", "", 0, 0, "")); }
    }
  }

  // ------------------------------------------------------------------
  // The two decoders agree
  // ------------------------------------------------------------------

  lemma {:induction false} UpToDotIsFirstPart(s: string)
    ensures UpToDot(s) == SplitDots(s)[0]
    ensures '.' in s <==> |SplitDots(s)| > 1
  {
    if s != "" {
      UpToDotIsFirstPart(s[1..]);
      assert s == [s[0]] + s[1..];
    }
  }

  /** On every authentic token, issued here or not, the unverified decoder reads the same object. */
  lemma DecodersAgree(mac: Mac, key: Key, token: string)
    requires Authenticate(mac, key, token).Ok?
    ensures DecodeUnverified(token) ==
            match ParsePayload(Authenticate(mac, key, token).value)
            case None => None
            case Some(o) => Attribute(o)
  {
    UpToDotIsFirstPart(token);
    StrictAgreesWithLenient(SplitDots(token)[0]);
  }

  /** The unverified look takes the text up to the first dot, which must be there, and two claims from it. */
  lemma AttributedIff(token: string, seen: Attribution)
    ensures DecodeUnverified(token) == Some(seen) <==>
            exists a, rest, o :: && token == a + "." + rest && '.' !in a && PayloadOf(a) == Some(o)
                                 && "tid" in o && "n" in o && seen == Attribution(o["tid"], o["n"])
  {
    if '.' in token {
      var rest := FirstPart(token);
      assert token == UpToDot(token) + "." + rest;
    }
    if exists a, rest, o :: && token == a + "." + rest && '.' !in a && PayloadOf(a) == Some(o)
                            && "tid" in o && "n" in o && seen == Attribution(o["tid"], o["n"]) {
      var a, rest, o :| && token == a + "." + rest && '.' !in a && PayloadOf(a) == Some(o)
                        && "tid" in o && "n" in o && seen == Attribution(o["tid"], o["n"]);
      UpToFirst(a, rest);
      assert token[|a|] == '.';
    }
  }

  function PayloadOf(word: string): Option<map<string, Value>> {
    match StdDecode(word)
    case None => None
    case Some(payload) => ParsePayload(payload)
  }

  lemma {:induction false} FirstPart(s: string) returns (rest: string)
    requires '.' in s
    ensures s == UpToDot(s) + "." + rest && '.' !in UpToDot(s)
  {
    if s[0] == '.' {
      rest := s[1..];
      assert s == [s[0]] + s[1..] && UpToDot(s) == "";
    } else {
      rest := FirstPart(s[1..]);
      assert s == [s[0]] + s[1..];
      assert [s[0]] + (UpToDot(s[1..]) + "." + rest) == [s[0]] + UpToDot(s[1..]) + "." + rest;
    }
  }

  lemma {:induction false} UpToFirst(a: string, rest: string)
    requires '.' !in a
    ensures UpToDot(a + "." + rest) == a
  {
    var s := a + "." + rest;
    if a != "" {
      UpToFirst(a[1..], rest);
      assert s[0] == a[0] && s[1..] == a[1..] + "." + rest && a == [a[0]] + a[1..];
    } else {
      assert s[0] == '.';
    }
  }

  lemma ClaimsNameTheirTenant(o: map<string, Value>, c: Claims, now: int, toInt: ToInt)
    ensures CheckClaims(o, c.tenant, now, toInt) == Ok(c) ==>
              Attribute(o).Some? && Attribute(o).value.tenant.Text() == c.tenant
              && Attribute(o).value.nonce.Text() == c.nonce
    ensures Attribute(o).Some? ==>
              var own := Attribute(o).value.tenant.Text();
              && CheckClaims(o, own, now, toInt) != Err(TenantMismatch)
              && (CheckClaims(o, own, now, toInt) == Ok(c) ==> c.tenant == own)
  {
  }

  /**
   The callback accepts exactly the tokens that verify against the tenant they name, with the tenant
   and nonce its own decoder saw; it never fails on a tenant mismatch.
   */
  lemma CallbackAcceptsIff(mac: Mac, key: Key, token: string, now: int, toInt: ToInt, c: Claims)
    ensures CallbackGate(mac, key, token, now, toInt) == Ok(c) <==>
            VerifyState(mac, key, token, c.tenant, now, toInt) == Ok(c)
    ensures CallbackGate(mac, key, token, now, toInt) != Err(TenantMismatch)
    ensures VerifyState(mac, key, token, c.tenant, now, toInt) == Ok(c) ==>
              && DecodeUnverified(token).Some?
              && DecodeUnverified(token).value.tenant.Text() == c.tenant
              && DecodeUnverified(token).value.nonce.Text() == c.nonce
  {
    if Authenticate(mac, key, token).Ok? {
      DecodersAgree(mac, key, token);
      var parsed := ParsePayload(Authenticate(mac, key, token).value);
      if parsed.Some? {
        ClaimsNameTheirTenant(parsed.value, c, now, toInt);
      }
    }
  }

  /** No two payloads share a code under this key. */
  ghost predicate CollisionFree(mac: Mac, key: Key) {
    forall p: Bytes, q: Bytes :: mac(key, p) == mac(key, q) ==> p == q
  }

  /** With an ideal code, whoever reuses the signature of an issued token gets its claims and no others. */
  lemma SignatureFixesClaims(mac: Mac, key: Key, issued: Claims, token: string, expected: string, now: int,
                             toInt: ToInt)
    requires CollisionFree(mac, key)
    requires VerifyState(mac, key, token, expected, now, toInt).Ok?
    requires Decode(SplitDots(token)[|SplitDots(token)| - 1]) == Some(mac(key, Payload(issued)))
    ensures VerifyState(mac, key, token, expected, now, toInt) == Ok(issued)
    ensures expected == issued.tenant && now < issued.expiresAt
  {
    PayloadParses(issued);
  }
}
