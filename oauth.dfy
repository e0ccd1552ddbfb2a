/** Bearer-token validation (backend/oauth_validator.py): base64url padding,
    splitting a JWS Compact Serialization (section 7.1 of RFC 7515), the JWS
    Signing Input (section 5.2 of RFC 7515), selection of the RSA key from the
    cached JWK Set with big-endian decoding of its `n` and `e` members
    (section 6.3.1 of RFC 7518), and the claim checks of `get_current_user`.

    The library calls the validator relies on are passed in as an `Env`:
    the base64 alphabet decoding, `json.loads`, the construction of the RSA
    public key and the PKCS#1 v1.5 / SHA-256 signature check. The JWK Set is
    the content of `jwks_cache`, the clock is the integer `now`. */
module OAuthValidator {
  import opened Wrappers

  type byte = x: int | 0 <= x < 256

  /** A value produced by `json.loads`. Numbers are modelled as integers. */
  datatype Json =
    | JNull
    | JBool(b: bool)
    | JNum(n: int)
    | JStr(s: string)
    | JArr(items: seq<Json>)
    | JObj(fields: map<string, Json>)

  /** The Python exceptions the validation code can raise. `Credentials` is the
      401 `HTTPException` raised on a failed check. */
  datatype Exc = ValueError | KeyError | TypeError | AttributeError | Credentials

  datatype RsaKey = RsaKey(n: nat, e: nat)

  /** The library functions the validator calls. */
  datatype Env = Env(
    /** `base64.urlsafe_b64decode` of an already padded string; `None` stands for
        the `binascii.Error` (a `ValueError`) it raises on malformed input. */
    b64decode: string -> Option<seq<byte>>,
    /** `json.loads`; `None` stands for its `ValueError`s. */
    parseJson: seq<byte> -> Option<Json>,
    /** Whether `RSAPublicNumbers(e, n).public_key()` accepts `(e, n)`; it raises
        `ValueError` otherwise. */
    keyAccepted: (nat, nat) -> bool,
    /** `public_key.verify` with PKCS#1 v1.5 padding and SHA-256 on the UTF-8
        bytes of the message; false stands for any exception it raises. */
    verify: (RsaKey, string, seq<byte>) -> bool)

  /** `ALGORITHM`, `ISSUER`, `AUDIENCE` as read from the environment; `None`
      when the variable is unset. */
  datatype Config = Config(algorithm: Option<string>, issuer: Option<string>, audience: Option<string>)

  /** The outcome of `get_current_user`. */
  datatype AuthResult = User(name: Json) | Unauthorized | ServerError

  // ---------------------------------------------------------------------------
  // base64url (section 5 of RFC 4648) with the padding of section 3.2

  /** `base64url_decode`'s padding step: as many `=` as bring the length to a
      multiple of four. */
  function Pad(s: string): (r: string)
    ensures |r| % 4 == 0
    ensures |s| <= |r| < |s| + 4
    ensures r[..|s|] == s
    ensures forall i :: |s| <= i < |r| ==> r[i] == '='
  {
    var rem := |s| % 4;
    if rem > 0 then s + seq(4 - rem, _ => '=') else s
  }

  /** `base64url_decode`: pad, then decode; a decoding error is a `ValueError`. */
  function B64Decode(env: Env, s: string): Result<seq<byte>, Exc> {
    match env.b64decode(Pad(s))
    case Some(bytes) => Success(bytes)
    case None => Failure(ValueError)
  }

  /** `base64url_decode` applied to a JSON value: anything but a string fails
      with a `TypeError` (in `len`, in `+=` or in the decoder itself). */
  function B64DecodeJson(env: Env, v: Json): Result<seq<byte>, Exc> {
    if v.JStr? then B64Decode(env, v.s) else Failure(TypeError)
  }

  function ParseJson(env: Env, bytes: seq<byte>): Result<Json, Exc> {
    match env.parseJson(bytes)
    case Some(j) => Success(j)
    case None => Failure(ValueError)
  }

  // ---------------------------------------------------------------------------
  // Splitting on '.'

  function CountOf(s: string, c: char): nat {
    if s == [] then 0 else (if s[0] == c then 1 else 0) + CountOf(s[1..], c)
  }

  /** Python's `s.split(sep)` for a one-character separator. */
  function Split(s: string, sep: char): (parts: seq<string>)
    ensures |parts| == CountOf(s, sep) + 1
    ensures forall p :: p in parts ==> sep !in p
  {
    if s == [] then [""]
    else
      var rest := Split(s[1..], sep);
      if s[0] == sep then [""] + rest else [[s[0]] + rest[0]] + rest[1..]
  }

  /** `sep.join(parts)`. */
  function Join(parts: seq<string>, sep: char): string
    requires |parts| >= 1
  {
    if |parts| == 1 then parts[0] else parts[0] + [sep] + Join(parts[1..], sep)
  }

  /** Joining the pieces of a split gives back the string. */
  lemma {:induction false} JoinSplit(s: string, sep: char)
    ensures Join(Split(s, sep), sep) == s
  {
    if s != [] {
      var rest := Split(s[1..], sep);
      JoinSplit(s[1..], sep);
      if s[0] == sep {
        assert Split(s, sep)[1..] == rest;
      } else {
        var parts := Split(s, sep);
        assert parts[1..] == rest[1..];
        if |rest| > 1 {
          assert Join(rest, sep) == rest[0] + [sep] + Join(rest[1..], sep);
        }
      }
    }
  }

  /** Splitting a join of separator-free pieces gives back the pieces. */
  lemma {:induction false} SplitJoin(parts: seq<string>, sep: char)
    requires |parts| >= 1
    requires forall p :: p in parts ==> sep !in p
    ensures Split(Join(parts, sep), sep) == parts
  {
    if |parts| == 1 {
      SplitFree(parts[0], sep);
    } else {
      SplitJoin(parts[1..], sep);
      SplitAfter(parts[0], Join(parts[1..], sep), sep);
      assert parts == [parts[0]] + parts[1..];
    }
  }

  /** A string without the separator splits into itself. */
  lemma {:induction false} SplitFree(s: string, sep: char)
    requires sep !in s
    ensures Split(s, sep) == [s]
  {
    if s != [] {
      SplitFree(s[1..], sep);
      assert [s[0]] + s[1..] == s;
    }
  }

  /** A separator-free prefix followed by the separator is split off first. */
  lemma {:induction false} SplitAfter(p: string, t: string, sep: char)
    requires sep !in p
    ensures Split(p + [sep] + t, sep) == [p] + Split(t, sep)
  {
    if p == [] {
      assert [sep] + t == p + [sep] + t;
      assert ([sep] + t)[1..] == t;
    } else {
      SplitAfter(p[1..], t, sep);
      assert (p + [sep] + t)[1..] == p[1..] + [sep] + t;
      assert [p[0]] + p[1..] == p;
    }
  }

  // ---------------------------------------------------------------------------
  // decode_jwt and the signing input

  /** `decode_jwt`: exactly three '.'-separated segments (any other number is a
      `ValueError`), the first two base64url-encoded JSON, the third the
      base64url-encoded signature. */
  function DecodeJwt(env: Env, token: string): Result<(Json, Json, seq<byte>), Exc> {
    var parts := Split(token, '.');
    if |parts| != 3 then Failure(ValueError)
    else
      var headerBytes :- B64Decode(env, parts[0]);
      var header :- ParseJson(env, headerBytes);
      var payloadBytes :- B64Decode(env, parts[1]);
      var payload :- ParseJson(env, payloadBytes);
      var signature :- B64Decode(env, parts[2]);
      Success((header, payload, signature))
  }

  /** A token with fewer or more than two dots is refused with `ValueError`
      before anything is decoded. */
  lemma SegmentCount(env: Env, token: string)
    ensures CountOf(token, '.') != 2 ==> DecodeJwt(env, token) == Failure(ValueError)
    ensures DecodeJwt(env, token).Success? ==> |Split(token, '.')| == 3
  {
  }

  /** The JWS Signing Input: `header "." payload`, as `verify_signature` builds it. */
  function SigningInput(header: string, payload: string): string {
    header + "." + payload
  }

  /** For a three-segment token the signing input is the token up to its last
      dot: the token is the signing input, a dot and the signature segment, and
      the signature segment has no dot. */
  lemma {:induction false} SigningInputIsTokenPrefix(token: string)
    requires |Split(token, '.')| == 3
    ensures var parts := Split(token, '.');
      && token == SigningInput(parts[0], parts[1]) + "." + parts[2]
      && '.' !in parts[2]
  {
    var parts := Split(token, '.');
    JoinSplit(token, '.');
    assert parts[1..][1..] == [parts[2]];
    assert Join(parts[1..], '.') == parts[1] + "." + parts[2];
    assert token == parts[0] + "." + (parts[1] + "." + parts[2]);
    assert parts[2] in parts;
  }

  /** The signature segment can be recovered from a signing input and the
      signature: splitting `input "." sig` gives back the three segments. */
  lemma {:induction false} SegmentsOfSignedToken(header: string, payload: string, sig: string)
    requires '.' !in header && '.' !in payload && '.' !in sig
    ensures Split(SigningInput(header, payload) + "." + sig, '.') == [header, payload, sig]
  {
    var parts := [header, payload, sig];
    assert Join(parts[1..], '.') == payload + "." + sig;
    assert Join(parts, '.') == SigningInput(header, payload) + "." + sig;
    SplitJoin(parts, '.');
  }

  /** `verify_signature`: split again (a `ValueError` outside its `try` on a
      wrong count), then check the decoded third segment against the signing
      input; a failure to decode the signature counts as a bad signature. */
  function VerifySignature(env: Env, token: string, key: RsaKey): Result<bool, Exc> {
    var parts := Split(token, '.');
    if |parts| != 3 then Failure(ValueError)
    else match B64Decode(env, parts[2])
      case Failure(_) => Success(false)
      case Success(sig) => Success(env.verify(key, SigningInput(parts[0], parts[1]), sig))
  }

  // ---------------------------------------------------------------------------
  // Big-endian integers (section 6.3.1 of RFC 7518)

  function Pow256(k: nat): (r: nat)
    ensures r >= 1
  {
    if k == 0 then 1 else 256 * Pow256(k - 1)
  }

  /** `int.from_bytes(bytes, byteorder='big')`, reading the last byte as the
      least significant. */
  function BigEndian(bytes: seq<byte>): (n: nat)
    ensures n < Pow256(|bytes|)
  {
    if bytes == [] then 0
    else
      var init := bytes[..|bytes| - 1];
      var high := BigEndian(init);
      assert high + 1 <= Pow256(|init|);
      assert high * 256 + 256 <= Pow256(|init|) * 256;
      high * 256 + bytes[|bytes| - 1]
  }

  /** The same number as a sum of digits weighted from the first (most
      significant) byte. */
  function Weighted(bytes: seq<byte>): nat {
    if bytes == [] then 0 else bytes[0] * Pow256(|bytes| - 1) + Weighted(bytes[1..])
  }

  /** Appending a byte shifts the weighted sum by one byte. */
  lemma {:induction false} WeightedSnoc(bytes: seq<byte>, x: byte)
    ensures Weighted(bytes + [x]) == Weighted(bytes) * 256 + x
  {
    if bytes != [] {
      var rest := bytes[1..];
      assert (bytes + [x])[1..] == rest + [x];
      WeightedSnoc(rest, x);
      ShiftByte(bytes[0], Pow256(|rest|), Weighted(rest), x);
    }
  }

  lemma ShiftByte(d: int, p: int, w: int, x: int)
    ensures d * (256 * p) + (w * 256 + x) == (d * p + w) * 256 + x
  {
  }

  /** The two readings agree: the first byte carries the highest weight. */
  lemma {:induction false} BigEndianIsWeighted(bytes: seq<byte>)
    ensures BigEndian(bytes) == Weighted(bytes)
  {
    if bytes != [] {
      var init := bytes[..|bytes| - 1];
      BigEndianIsWeighted(init);
      WeightedSnoc(init, bytes[|bytes| - 1]);
      assert init + [bytes[|bytes| - 1]] == bytes;
    }
  }

  /** Leading zero bytes do not change the value. */
  lemma LeadingZero(bytes: seq<byte>)
    ensures BigEndian([0] + bytes) == BigEndian(bytes)
  {
    BigEndianIsWeighted([0] + bytes);
    BigEndianIsWeighted(bytes);
    assert ([0] + bytes)[1..] == bytes;
  }

  // ---------------------------------------------------------------------------
  // Reading JSON the way the Python code does

  /** `obj[key]`: a `KeyError` on a dictionary without the key, a `TypeError` on
      anything that is not a dictionary. */
  function Index(obj: Json, key: string): Result<Json, Exc> {
    if !obj.JObj? then Failure(TypeError)
    else if key in obj.fields then Success(obj.fields[key])
    else Failure(KeyError)
  }

  /** `obj.get(key, default)`: an `AttributeError` on anything that is not a
      dictionary. */
  function Get(obj: Json, key: string, default: Json): Result<Json, Exc> {
    if !obj.JObj? then Failure(AttributeError)
    else if key in obj.fields then Success(obj.fields[key])
    else Success(default)
  }

  /** The integer a JSON value compares as (`bool` is a subtype of `int`). */
  function NumberOf(v: Json): Option<int> {
    match v
    case JNum(n) => Some(n)
    case JBool(b) => Some(if b then 1 else 0)
    case _ => None
  }

  /** Python `==` between two JSON values: booleans equal the integers 0 and 1,
      otherwise structural equality. */
  predicate PyEq(a: Json, b: Json) {
    if NumberOf(a).Some? && NumberOf(b).Some? then NumberOf(a) == NumberOf(b) else a == b
  }

  /** Python `==` between a JSON value and a configuration value (`None` when
      unset). */
  predicate EqualsSetting(v: Json, setting: Option<string>) {
    match setting
    case None => v == JNull
    case Some(s) => v == JStr(s)
  }

  // ---------------------------------------------------------------------------
  // get_public_key

  /** The RSA key of one JWK: `n` then `e`, each base64url-decoded and read big
      endian, then handed to the key constructor. */
  function KeyFromJwk(env: Env, jwk: Json): Result<RsaKey, Exc> {
    var nField :- Index(jwk, "n");
    var nBytes :- B64DecodeJson(env, nField);
    var eField :- Index(jwk, "e");
    var eBytes :- B64DecodeJson(env, eField);
    var n := BigEndian(nBytes);
    var e := BigEndian(eBytes);
    if env.keyAccepted(e, n) then Success(RsaKey(n, e)) else Failure(ValueError)
  }

  /** The loop of `get_public_key` over the `keys` list: the first key whose
      `kid` equals `kid` and whose `kty` is `"RSA"`. Reading `kid` (or, on a
      matching key, `kty`) from an entry stops the search with the error. */
  function FindKey(env: Env, keys: seq<Json>, kid: Json): Result<RsaKey, Exc> {
    if keys == [] then Failure(ValueError)
    else
      var keyId :- Index(keys[0], "kid");
      if PyEq(keyId, kid) then
        var kty :- Index(keys[0], "kty");
        if kty == JStr("RSA") then KeyFromJwk(env, keys[0]) else FindKey(env, keys[1..], kid)
      else FindKey(env, keys[1..], kid)
  }

  /** `get_public_key(kid)` over the cached JWK Set. Iterating a dictionary or a
      string yields strings, which fail when indexed by `'kid'`; an empty one
      ends the loop at once. Other values are not iterable. */
  function GetPublicKey(env: Env, jwks: Json, kid: Json): Result<RsaKey, Exc> {
    var keys :- Index(jwks, "keys");
    match keys
    case JArr(items) => FindKey(env, items, kid)
    case JObj(fields) => if |fields| == 0 then Failure(ValueError) else Failure(TypeError)
    case JStr(s) => if |s| == 0 then Failure(ValueError) else Failure(TypeError)
    case _ => Failure(TypeError)
  }

  /** A JWK the search selects for `kid`. */
  predicate Selected(jwk: Json, kid: Json) {
    jwk.JObj? && "kid" in jwk.fields && PyEq(jwk.fields["kid"], kid)
    && "kty" in jwk.fields && jwk.fields["kty"] == JStr("RSA")
  }

  /** A JWK the search passes over without error for `kid`. */
  predicate PassedOver(jwk: Json, kid: Json) {
    jwk.JObj? && "kid" in jwk.fields
    && (PyEq(jwk.fields["kid"], kid) ==> "kty" in jwk.fields && jwk.fields["kty"] != JStr("RSA"))
  }

  /** The key found is the one of the first selected JWK, all JWKs before it
      having been passed over. */
  lemma {:induction false} FindKeyFirstMatch(env: Env, keys: seq<Json>, kid: Json, i: int)
    requires 0 <= i < |keys| && Selected(keys[i], kid)
    requires forall j :: 0 <= j < i ==> PassedOver(keys[j], kid)
    ensures FindKey(env, keys, kid) == KeyFromJwk(env, keys[i])
  {
    if i > 0 {
      FindKeyFirstMatch(env, keys[1..], kid, i - 1);
    }
  }

  /** With no selectable JWK and no malformed one, the search raises `ValueError`. */
  lemma {:induction false} FindKeyNone(env: Env, keys: seq<Json>, kid: Json)
    requires forall j :: 0 <= j < |keys| ==> PassedOver(keys[j], kid)
    ensures FindKey(env, keys, kid) == Failure(ValueError)
  {
    if keys != [] {
      FindKeyNone(env, keys[1..], kid);
    }
  }

  /** A key is only ever found in the first selected JWK. */
  lemma {:induction false} FindKeyFound(env: Env, keys: seq<Json>, kid: Json)
    requires FindKey(env, keys, kid).Success?
    ensures exists i ::
              && 0 <= i < |keys| && Selected(keys[i], kid)
              && (forall j :: 0 <= j < i ==> PassedOver(keys[j], kid))
              && FindKey(env, keys, kid) == KeyFromJwk(env, keys[i])
  {
    if Selected(keys[0], kid) {
      assert 0 < |keys|;
    } else {
      assert PassedOver(keys[0], kid) && FindKey(env, keys, kid) == FindKey(env, keys[1..], kid);
      FindKeyFound(env, keys[1..], kid);
      var i :| 0 <= i < |keys[1..]| && Selected(keys[1..][i], kid)
        && (forall j :: 0 <= j < i ==> PassedOver(keys[1..][j], kid))
        && FindKey(env, keys[1..], kid) == KeyFromJwk(env, keys[1..][i]);
      PassedOverCons(keys, kid, i);
      assert keys[1..][i] == keys[i + 1];
    }
  }

  /** Passing over the first JWK and then `n` more passes over `n + 1`. */
  lemma PassedOverCons(keys: seq<Json>, kid: Json, n: int)
    requires 0 <= n < |keys| && PassedOver(keys[0], kid)
    requires forall j :: 0 <= j < n ==> PassedOver(keys[1..][j], kid)
    ensures forall j :: 0 <= j < n + 1 ==> PassedOver(keys[j], kid)
  {
    forall j | 0 <= j < n + 1 ensures PassedOver(keys[j], kid) {
      if j > 0 { assert keys[j] == keys[1..][j - 1]; }
    }
  }

  // ---------------------------------------------------------------------------
  // get_current_user

  /** `payload.get(claim, 0) < now` and its mirror: a `TypeError` when the
      claim is not a number. */
  function Before(v: Json, now: int): Result<bool, Exc> {
    match NumberOf(v)
    case Some(t) => Success(t < now)
    case None => Failure(TypeError)
  }

  function After(v: Json, now: int): Result<bool, Exc> {
    match NumberOf(v)
    case Some(t) => Success(t > now)
    case None => Failure(TypeError)
  }

  /** The claim checks, in the order of the source: `iss`, `aud` (exact
      equality), `exp` (missing is 0), `nbf` (missing is 0), `sub` present. */
  function CheckClaims(cfg: Config, payload: Json, now: int): Result<Json, Exc> {
    var iss :- Get(payload, "iss", JNull);
    if !EqualsSetting(iss, cfg.issuer) then Failure(Credentials) else
    var aud :- Get(payload, "aud", JNull);
    if !EqualsSetting(aud, cfg.audience) then Failure(Credentials) else
    var exp :- Get(payload, "exp", JNum(0));
    var expired :- Before(exp, now);
    if expired then Failure(Credentials) else
    var nbf :- Get(payload, "nbf", JNum(0));
    var early :- After(nbf, now);
    if early then Failure(Credentials) else
    var sub :- Get(payload, "sub", JNull);
    if sub == JNull then Failure(Credentials) else Success(sub)
  }

  /** The body of the `try` in `get_current_user`. */
  function ValidateToken(cfg: Config, env: Env, jwks: Json, token: string, now: int): Result<Json, Exc> {
    var decoded :- DecodeJwt(env, token);
    var header := decoded.0;
    var alg :- Index(header, "alg");
    if !EqualsSetting(alg, cfg.algorithm) then Failure(Credentials) else
    var kid :- Index(header, "kid");
    var key :- GetPublicKey(env, jwks, kid);
    var verified :- VerifySignature(env, token, key);
    if !verified then Failure(Credentials) else
    CheckClaims(cfg, decoded.1, now)
  }

  /** `get_current_user`: the `sub` claim, or 401 for a failed check, a
      `ValueError` or a `KeyError`; any other exception escapes as a server
      error. */
  function GetCurrentUser(cfg: Config, env: Env, jwks: Json, token: string, now: int): (r: AuthResult)
    ensures ValidateToken(cfg, env, jwks, token, now).Success? <==> r.User?
    ensures r.User? ==> r.name == ValidateToken(cfg, env, jwks, token, now).value
    ensures r == Unauthorized <==>
              ValidateToken(cfg, env, jwks, token, now) in {Failure(ValueError), Failure(KeyError), Failure(Credentials)}
  {
    match ValidateToken(cfg, env, jwks, token, now)
    case Success(user) => User(user)
    case Failure(ValueError) => Unauthorized
    case Failure(KeyError) => Unauthorized
    case Failure(Credentials) => Unauthorized
    case Failure(_) => ServerError
  }

  // ---------------------------------------------------------------------------
  // What acceptance means

  /** The claims of a payload all hold for `user` at time `now`. */
  predicate ClaimsHold(cfg: Config, claims: map<string, Json>, now: int, user: Json) {
    var exp := if "exp" in claims then claims["exp"] else JNum(0);
    var nbf := if "nbf" in claims then claims["nbf"] else JNum(0);
    && EqualsSetting(if "iss" in claims then claims["iss"] else JNull, cfg.issuer)
    && EqualsSetting(if "aud" in claims then claims["aud"] else JNull, cfg.audience)
    && NumberOf(exp).Some? && NumberOf(exp).value >= now
    && NumberOf(nbf).Some? && NumberOf(nbf).value <= now
    && "sub" in claims && claims["sub"] != JNull && user == claims["sub"]
  }

  /** Every check of `get_current_user` passes for `token`, with `user` its
      subject. */
  predicate AllChecksPass(cfg: Config, env: Env, jwks: Json, token: string, now: int, user: Json) {
    var parts := Split(token, '.');
    && |parts| == 3
    && DecodeJwt(env, token).Success?
    && var (header, payload, signature) := DecodeJwt(env, token).value;
    && header.JObj? && "alg" in header.fields && EqualsSetting(header.fields["alg"], cfg.algorithm)
    && "kid" in header.fields && GetPublicKey(env, jwks, header.fields["kid"]).Success?
    && env.verify(GetPublicKey(env, jwks, header.fields["kid"]).value, SigningInput(parts[0], parts[1]), signature)
    && payload.JObj? && ClaimsHold(cfg, payload.fields, now, user)
  }

  lemma ClaimsIff(cfg: Config, payload: Json, now: int, user: Json)
    ensures CheckClaims(cfg, payload, now) == Success(user) <==> payload.JObj? && ClaimsHold(cfg, payload.fields, now, user)
  {
  }

  /** A user is returned exactly when every check passes. */
  lemma AcceptedIffAllChecksPass(cfg: Config, env: Env, jwks: Json, token: string, now: int, user: Json)
    ensures GetCurrentUser(cfg, env, jwks, token, now) == User(user) <==> AllChecksPass(cfg, env, jwks, token, now, user)
  {
    ClaimsIff(cfg, if DecodeJwt(env, token).Success? then DecodeJwt(env, token).value.1 else JNull, now, user);
  }

  /** A token is accepted up to and including the second of its `exp` claim:
      expiring now is treated like expiring a second later, expiring a second
      ago is refused. (Section 4.1.4 of RFC 7519 refuses it at that second.) */
  lemma ExpiryIsInclusive(cfg: Config, claims: map<string, Json>, now: int)
    ensures CheckClaims(cfg, JObj(claims["exp" := JNum(now)]), now)
         == CheckClaims(cfg, JObj(claims["exp" := JNum(now + 1)]), now)
    ensures CheckClaims(cfg, JObj(claims["exp" := JNum(now - 1)]), now) == Failure(Credentials)
  {
  }

  /** A payload without `exp` counts as expiring at time 0: it is refused at
      any later time. */
  lemma MissingExpiryRejected(cfg: Config, claims: map<string, Json>, now: int)
    requires "exp" !in claims && now > 0
    ensures CheckClaims(cfg, JObj(claims), now) == Failure(Credentials)
  {
  }

  /** A payload without `nbf` behaves as one valid from `now` on: it never
      fails the `nbf` check (for times from 0 on). */
  lemma MissingNotBeforeAccepted(cfg: Config, claims: map<string, Json>, now: int)
    requires "nbf" !in claims && now >= 0
    ensures CheckClaims(cfg, JObj(claims), now) == CheckClaims(cfg, JObj(claims["nbf" := JNum(now)]), now)
  {
  }

  /** An array-valued `aud` never equals the configured audience: the token is
      refused. */
  lemma ArrayAudienceRejected(cfg: Config, claims: map<string, Json>, now: int)
    requires "aud" in claims && claims["aud"].JArr?
    ensures CheckClaims(cfg, JObj(claims), now) == Failure(Credentials)
  {
  }
}
