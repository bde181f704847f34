/** The access-token codec of `internal/security`: a JSON Web Token (RFC 7519)
    over the claims user_id, session_id and created_at, signed with HS256
    (section 3.2 of RFC 7518) under the configured secret; and the pair of
    helpers that carry the verified claims in a request context. */
module Security {
  import opened Common
  import opened Uuids
  import opened Times

  /** `security.Claims`. */
  datatype Claims = Claims(userId: Uuid, sessionId: Uuid, createdAt: Time)

  /** A claim value after JSON decoding: strings stay strings, numbers, objects
      and the rest decode to some other Go type. */
  datatype ClaimValue = JsonString(text: string) | JsonOther

  /** `jwt.MapClaims`. */
  type ClaimSet = map<string, ClaimValue>

  /** The JSON Web Token library under HS256. `sign(key, claims)` is
      `SignedString`, which may fail; `parse(key, token)` is `jwt.Parse` with a
      key function that returns `key`, and yields the decoded claims of a token
      whose signature verifies. */
  datatype Jwt = Jwt(sign: (string, ClaimSet) -> Option<string>,
                     parse: (string, string) -> Option<ClaimSet>)

  /** What HS256 provides: a signed token verifies under its own key and
      decodes to the claims it was signed with; it does not verify under any
      other key; and the empty string is not a token at all. */
  ghost predicate JwtSound(jwt: Jwt) {
    && (forall key, claims :: jwt.sign(key, claims).Some? ==>
          jwt.parse(key, jwt.sign(key, claims).value) == Some(claims))
    && (forall key, other, claims :: jwt.sign(key, claims).Some? && other != key ==>
          jwt.parse(other, jwt.sign(key, claims).value) == None)
    && (forall key :: jwt.parse(key, "") == None)
  }

  /** The `security` value: the signer and the configured secret `cfg.Secret`. */
  datatype Signer = Signer(jwt: Jwt, secret: string)

  /** The claim map a token carries, from its three texts. */
  function ClaimMap(userId: string, sessionId: string, createdAt: string): (m: ClaimSet)
    ensures m.Keys == {"user_id", "session_id", "created_at"}
    ensures forall k :: k in m ==> m[k].JsonString?
  {
    map["user_id" := JsonString(userId),
        "session_id" := JsonString(sessionId),
        "created_at" := JsonString(createdAt)]
  }

  /** The claims as the generator writes them: the creation time through
      `time.Time.String`. */
  function EncodeClaimsAsWritten(c: Claims): ClaimSet {
    ClaimMap(UuidString(c.userId), UuidString(c.sessionId), TimeString(c.createdAt))
  }

  /** The claims with the creation time in the RFC 3339 form the parser reads. */
  function EncodeClaims(c: Claims): ClaimSet {
    ClaimMap(UuidString(c.userId), UuidString(c.sessionId), FormatRfc3339(c.createdAt))
  }

  /** `GenerateAccessToken` as the source has it; a signing error is dropped
      and the empty token returned in its place. */
  function GenerateAccessTokenAsWritten(s: Signer, c: Claims): (token: string)
    ensures JwtSound(s.jwt) ==> (token == "" <==> s.jwt.sign(s.secret, EncodeClaimsAsWritten(c)).None?)
    ensures JwtSound(s.jwt) && token != "" ==> s.jwt.parse(s.secret, token) == Some(EncodeClaimsAsWritten(c))
  {
    s.jwt.sign(s.secret, EncodeClaimsAsWritten(c)).GetOr("")
  }

  /** `GenerateAccessToken` with the creation time written as RFC 3339. */
  function GenerateAccessToken(s: Signer, c: Claims): (token: string)
    ensures JwtSound(s.jwt) ==> (token == "" <==> s.jwt.sign(s.secret, EncodeClaims(c)).None?)
    ensures JwtSound(s.jwt) && token != "" ==> s.jwt.parse(s.secret, token) == Some(EncodeClaims(c))
  {
    s.jwt.sign(s.secret, EncodeClaims(c)).GetOr("")
  }

  /** The outcomes of `ParseAccessToken`: claims, `ErrInvalidToken`, or a
      run-time panic from a failed type assertion or `uuid.MustParse`. */
  datatype TokenResult = Parsed(claims: Claims) | InvalidToken | Panic

  /** `claims[key].(string)`; `None` where the assertion panics. */
  function ClaimText(m: ClaimSet, key: string): (r: Option<string>)
    ensures r.Some? <==> key in m && m[key].JsonString?
  {
    if key in m && m[key].JsonString? then Some(m[key].text) else None
  }

  /** The claims of a verified token, as the parser reads them:
      both identifiers must be present, be strings and parse, or the process
      panics; a creation time that is not RFC 3339 becomes the zero time. */
  function DecodeClaims(m: ClaimSet): (r: TokenResult)
    ensures r != InvalidToken
    ensures r.Parsed? <==>
      && ClaimText(m, "user_id").Some? && ParseUuid(ClaimText(m, "user_id").value).Some?
      && ClaimText(m, "session_id").Some? && ParseUuid(ClaimText(m, "session_id").value).Some?
      && ClaimText(m, "created_at").Some?
  {
    match (ClaimText(m, "user_id"), ClaimText(m, "session_id"), ClaimText(m, "created_at"))
    case (Some(u), Some(sid), Some(at)) =>
      (match (ParseUuid(u), ParseUuid(sid))
       case (Some(userId), Some(sessionId)) =>
         Parsed(Claims(userId, sessionId, ParseRfc3339(at).GetOr(ZeroTime)))
       case _ => Panic)
    case _ => Panic
  }

  /** `ParseAccessToken`: `ErrInvalidToken` exactly when the token does not
      verify under the configured secret. */
  function ParseAccessToken(s: Signer, token: string): (r: TokenResult)
    ensures r == InvalidToken <==> s.jwt.parse(s.secret, token).None?
  {
    match s.jwt.parse(s.secret, token)
    case None => InvalidToken
    case Some(m) => DecodeClaims(m)
  }

  /** A token made by the corrected generator parses back, under the same
      secret, to the very claims it was made from; when signing failed, the
      empty token it returned is invalid. */
  lemma TokenRoundTrip(s: Signer, c: Claims)
    requires JwtSound(s.jwt) && ValidTime(c.createdAt)
    ensures s.jwt.sign(s.secret, EncodeClaims(c)).Some? ==>
              ParseAccessToken(s, GenerateAccessToken(s, c)) == Parsed(c)
    ensures s.jwt.sign(s.secret, EncodeClaims(c)).None? ==>
              ParseAccessToken(s, GenerateAccessToken(s, c)) == InvalidToken
  {
    if s.jwt.sign(s.secret, EncodeClaims(c)).Some? {
      assert s.jwt.parse(s.secret, GenerateAccessToken(s, c)) == Some(EncodeClaims(c));
      DecodeEncoded(c);
    }
  }

  /** The corrected claim map decodes to the claims it was made from. */
  lemma DecodeEncoded(c: Claims)
    requires ValidTime(c.createdAt)
    ensures DecodeClaims(EncodeClaims(c)) == Parsed(c)
  {
    UuidRoundTrip(c.userId);
    UuidRoundTrip(c.sessionId);
    Rfc3339RoundTrip(c.createdAt);
    ClaimTexts(UuidString(c.userId), UuidString(c.sessionId), FormatRfc3339(c.createdAt));
  }

  /** Each claim of a claim map reads back as the text it was made from. */
  lemma ClaimTexts(userId: string, sessionId: string, createdAt: string)
    ensures var m := ClaimMap(userId, sessionId, createdAt);
      && ClaimText(m, "user_id") == Some(userId)
      && ClaimText(m, "session_id") == Some(sessionId)
      && ClaimText(m, "created_at") == Some(createdAt)
  {
  }

  /** A token made by the generator as written keeps both identifiers, but
      its creation time always comes back as the zero time. */
  lemma TokenRoundTripAsWritten(s: Signer, c: Claims)
    requires JwtSound(s.jwt)
    requires s.jwt.sign(s.secret, EncodeClaimsAsWritten(c)).Some?
    ensures ParseAccessToken(s, GenerateAccessTokenAsWritten(s, c)) == Parsed(c.(createdAt := ZeroTime))
  {
    assert s.jwt.parse(s.secret, GenerateAccessTokenAsWritten(s, c)) == Some(EncodeClaimsAsWritten(c));
    DecodeEncodedAsWritten(c);
  }

  /** The claim map as written decodes with the zero creation time. */
  lemma DecodeEncodedAsWritten(c: Claims)
    ensures DecodeClaims(EncodeClaimsAsWritten(c)) == Parsed(c.(createdAt := ZeroTime))
  {
    UuidRoundTrip(c.userId);
    UuidRoundTrip(c.sessionId);
    StringIsNotRfc3339(c.createdAt);
    ClaimTexts(UuidString(c.userId), UuidString(c.sessionId), TimeString(c.createdAt));
  }

  /** The key function always answers with the configured secret, so a token
      issued under one secret is refused under any other. */
  lemma ForeignSecretRejected(s: Signer, other: string, m: ClaimSet, c: Claims)
    requires JwtSound(s.jwt) && other != s.secret
    ensures s.jwt.sign(s.secret, m).Some? ==>
              ParseAccessToken(s.(secret := other), s.jwt.sign(s.secret, m).value) == InvalidToken
    ensures ParseAccessToken(s.(secret := other), GenerateAccessTokenAsWritten(s, c)) == InvalidToken
    ensures ParseAccessToken(s.(secret := other), GenerateAccessToken(s, c)) == InvalidToken
  {
    SignedTokenForeign(s, other, EncodeClaimsAsWritten(c));
    SignedTokenForeign(s, other, EncodeClaims(c));
    SignedTokenForeign(s, other, m);
  }

  /** The token the generator returns for a claim map, signed or empty, does
      not verify under another secret. */
  lemma SignedTokenForeign(s: Signer, other: string, m: ClaimSet)
    requires JwtSound(s.jwt) && other != s.secret
    ensures s.jwt.parse(other, s.jwt.sign(s.secret, m).GetOr("")) == None
  {
    if s.jwt.sign(s.secret, m).None? {
      assert s.jwt.sign(s.secret, m).GetOr("") == "";
    }
  }

  // ---------------------------------------------------------------------
  // Claims in the request context.

  /** Context keys: `security.CtxKey{}` and the keys of other packages. */
  datatype CtxKey = ClaimsKey | OtherKey(name: string)

  datatype CtxValue = ClaimsValue(claims: Claims) | OtherValue

  /** `context.Context` as a chain of `WithValue` layers over `Background`. */
  datatype Context = Background | WithValue(parent: Context, key: CtxKey, value: CtxValue)

  /** `ctx.Value(key)`: the innermost layer with that key. */
  function Value(ctx: Context, key: CtxKey): Option<CtxValue> {
    match ctx
    case Background => None
    case WithValue(parent, k, v) => if k == key then Some(v) else Value(parent, key)
  }

  /** `GetClaims`; `None` where the type assertion panics because the context
      holds no claims. */
  function GetClaims(ctx: Context): (r: Option<Claims>)
    ensures r.Some? ==> Value(ctx, ClaimsKey) == Some(ClaimsValue(r.value))
    ensures r.None? ==> Value(ctx, ClaimsKey).None? || Value(ctx, ClaimsKey).value.OtherValue?
  {
    match Value(ctx, ClaimsKey)
    case Some(ClaimsValue(c)) => Some(c)
    case _ => None
  }

  /** `SetClaims`: the claims can be read back, and every other key still
      yields what it did. */
  function SetClaims(ctx: Context, c: Claims): (r: Context)
    ensures GetClaims(r) == Some(c)
    ensures forall k :: k != ClaimsKey ==> Value(r, k) == Value(ctx, k)
  {
    WithValue(ctx, ClaimsKey, ClaimsValue(c))
  }
}
