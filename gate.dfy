/** The request gate of `internal/middleware/security.go`: the chain of early
    returns that either rejects a request with a status and an error, or lets
    the next handler run with the verified claims in the request context. */
module Gate {
  import opened Common
  import opened Uuids
  import opened Times
  import opened Security
  import opened Stores

  const StatusUnauthorized: nat := 401
  const StatusInternalServerError: nat := 500

  /** The errors the gate renders; `InternalServerError` is the bare status
      text that `render.ServerError` writes. */
  datatype GateError = EmptyAuthHeader | InvalidAuthScheme | InvalidAuthToken | SessionExpired | InternalServerError

  /** A rejection; the next handler, run once with this context; or the
      panic of a token whose claims cannot be read. */
  datatype Outcome = Reject(status: nat, error: GateError) | Proceed(ctx: Context) | Crash

  const Bearer := "Bearer "

  predicate HasPrefix(s: string, prefix: string) {
    |prefix| <= |s| && s[..|prefix|] == prefix
  }

  /** `strings.TrimPrefix`. */
  function TrimPrefix(s: string, prefix: string): string {
    if HasPrefix(s, prefix) then s[|prefix|..] else s
  }

  /** Trimming a non-empty prefix leaves the string as it was exactly when
      the string does not start with it. */
  lemma TrimPrefixUnchanged(s: string, prefix: string)
    requires prefix != ""
    ensures TrimPrefix(s, prefix) == s <==> !HasPrefix(s, prefix)
  {
    if HasPrefix(s, prefix) {
      assert |TrimPrefix(s, prefix)| < |s|;
    }
  }

  /** The gate's decision for one request: its Authorization header, the
      sessions table as the lookup finds it (or the lookup's failure), and
      the request context. */
  function Decide(signer: Signer, header: string, sessions: map<Uuid, Session>, fault: bool, ctx: Context): (o: Outcome)
    ensures header == "" ==> o == Reject(StatusUnauthorized, EmptyAuthHeader)
    ensures header != "" && !HasPrefix(header, Bearer) ==> o == Reject(StatusUnauthorized, InvalidAuthScheme)
    ensures HasPrefix(header, Bearer) ==>
      var parsed := ParseAccessToken(signer, header[|Bearer|..]);
      && (parsed == InvalidToken ==> o == Reject(StatusUnauthorized, InvalidAuthToken))
      && (parsed == Panic ==> o == Crash)
      && (parsed.Parsed? && fault ==> o == Reject(StatusInternalServerError, InternalServerError))
      && (parsed.Parsed? && !fault && parsed.claims.sessionId !in sessions ==>
            o == Reject(StatusUnauthorized, SessionExpired))
      && (parsed.Parsed? && !fault && parsed.claims.sessionId in sessions ==>
            o == Proceed(SetClaims(ctx, parsed.claims)))
    ensures o.Proceed? <==>
      && HasPrefix(header, Bearer)
      && ParseAccessToken(signer, header[|Bearer|..]).Parsed?
      && !fault
      && ParseAccessToken(signer, header[|Bearer|..]).claims.sessionId in sessions
  {
    if header == "" then Reject(StatusUnauthorized, EmptyAuthHeader)
    else
      var token := TrimPrefix(header, Bearer);
      TrimPrefixUnchanged(header, Bearer);
      if token == header then Reject(StatusUnauthorized, InvalidAuthScheme)
      else
        match ParseAccessToken(signer, token)
        case InvalidToken => Reject(StatusUnauthorized, InvalidAuthToken)
        case Panic => Crash
        case Parsed(claims) =>
          match Lookup(sessions, claims.sessionId, fault, "storage.sessions.GetByID")
          case Err(_) => Reject(StatusInternalServerError, InternalServerError)
          case Ok(None) => Reject(StatusUnauthorized, SessionExpired)
          case Ok(Some(_)) => Proceed(SetClaims(ctx, claims))
  }

  /** The middleware's handler: it only reads the sessions store, and its
      outcome is the gate's decision on the table it reads. */
  method Serve(signer: Signer, header: string, sessions: SessionStore, fault: bool, ctx: Context) returns (o: Outcome)
    ensures o == Decide(signer, header, sessions.rows, fault, ctx)
  {
    if header == "" {
      return Reject(StatusUnauthorized, EmptyAuthHeader);
    }
    var token := TrimPrefix(header, Bearer);
    if token == header {
      return Reject(StatusUnauthorized, InvalidAuthScheme);
    }
    var parsed := ParseAccessToken(signer, token);
    if parsed == InvalidToken {
      return Reject(StatusUnauthorized, InvalidAuthToken);
    } else if parsed == Panic {
      return Crash;
    }
    var session := sessions.GetByID(parsed.claims.sessionId, fault);
    if session.Err? {
      return Reject(StatusInternalServerError, InternalServerError);
    }
    if session.value.None? {
      return Reject(StatusUnauthorized, SessionExpired);
    }
    return Proceed(SetClaims(ctx, parsed.claims));
  }

  lemma BearerSplit(token: string)
    ensures HasPrefix(Bearer + token, Bearer) && (Bearer + token)[|Bearer|..] == token
  {
    assert (Bearer + token)[..|Bearer|] == Bearer;
  }

  /** Revocation: a token that verifies and names a session is refused once
      that session is gone, however valid its signature. */
  lemma RevokedSessionRejected(signer: Signer, token: string, sessions: map<Uuid, Session>, ctx: Context)
    requires ParseAccessToken(signer, token).Parsed?
    requires ParseAccessToken(signer, token).claims.sessionId !in sessions
    ensures Decide(signer, Bearer + token, sessions, false, ctx) == Reject(StatusUnauthorized, SessionExpired)
  {
    BearerSplit(token);
  }

  /** The gate asks only whether a session with the token's id exists: which
      user the stored session belongs to is never compared with the token's
      user. */
  lemma DecisionIgnoresSessionRows(signer: Signer, header: string, s1: map<Uuid, Session>,
                                   s2: map<Uuid, Session>, fault: bool, ctx: Context)
    requires s1.Keys == s2.Keys
    ensures Decide(signer, header, s1, fault, ctx) == Decide(signer, header, s2, fault, ctx)
  {
  }

  /** A token issued for a live session lets the request through with
      exactly the claims it was issued for. */
  lemma IssuedTokenAdmitted(signer: Signer, c: Claims, sessions: map<Uuid, Session>, ctx: Context)
    requires JwtSound(signer.jwt) && ValidTime(c.createdAt)
    requires signer.jwt.sign(signer.secret, EncodeClaims(c)).Some?
    requires c.sessionId in sessions
    ensures Decide(signer, Bearer + GenerateAccessToken(signer, c), sessions, false, ctx) == Proceed(SetClaims(ctx, c))
    ensures GetClaims(Decide(signer, Bearer + GenerateAccessToken(signer, c), sessions, false, ctx).ctx) == Some(c)
  {
    BearerSplit(GenerateAccessToken(signer, c));
    TokenRoundTrip(signer, c);
  }

  /** With the generator as written, the claims the next handler sees carry
      the zero time instead of the session's creation time. */
  lemma IssuedTokenAdmittedAsWritten(signer: Signer, c: Claims, sessions: map<Uuid, Session>, ctx: Context)
    requires JwtSound(signer.jwt)
    requires signer.jwt.sign(signer.secret, EncodeClaimsAsWritten(c)).Some?
    requires c.sessionId in sessions
    ensures Decide(signer, Bearer + GenerateAccessTokenAsWritten(signer, c), sessions, false, ctx)
            == Proceed(SetClaims(ctx, c.(createdAt := ZeroTime)))
  {
    BearerSplit(GenerateAccessTokenAsWritten(signer, c));
    TokenRoundTripAsWritten(signer, c);
  }
}
