/** The access-token middleware (`BaseAuthMiddleware` and its client
    variant `ClientAuthMiddleware`): read the bearer token from the
    `authorization` header, verify it, check the role, and let the request
    through with the caller's e-mail and id. */
module Middleware {

  import opened Outcome
  import opened Accounts
  import Text

  const NoBearer: string := "Unauthorized: No or invalid Access token provided"
  const TokenMissing: string := "Unauthorized: Access Token is missing"
  const IncompleteToken: string := "Unauthorized: Invalid Access Token"
  const Restricted: string := "Forbidden: Access restricted"
  const Expired: string := "Access token expired"
  const RefusedToken: string := "Unauthorized: Invalid Access token"

  /** The message the token service throws for an expired token. */
  const TokenExpired: string := "Token Expired"

  const BearerPrefix: string := "Bearer "

  /** A header value: one string, or a list of them. */
  datatype Header = Single(text: string) | Many(texts: seq<string>)

  /** What an access token carries; any part may be missing. */
  datatype AccessClaims = AccessClaims(email: Option<string>, id: Option<string>, role: Option<string>)

  /** What the middleware does with a request: let it through with the
      caller's e-mail and id, or answer with a status and a message. */
  datatype Decision = Admit(email: string, id: string) | Refuse(status: int, message: string)

  /** Whether a header value is truthy: a list always is, a string when it
      is not empty. */
  predicate Present(h: Option<Header>) {
    h.Some? && (h.value.Many? || h.value.text != "")
  }

  /** `authorization || Authorization`, then the first entry of a list. */
  function TokenString(lower: Option<Header>, upper: Option<Header>): (t: Option<string>)
    ensures Present(lower) && lower.value.Single? ==> t == Some(lower.value.text)
    ensures !Present(lower) && upper.Some? && upper.value.Single? ==> t == Some(upper.value.text)
    ensures t.Some? ==> (Present(lower) || upper.Some?)
  {
    var h := if Present(lower) then lower else upper;
    match h
    case None => None
    case Some(Single(s)) => Some(s)
    case Some(Many(ss)) => if |ss| > 0 then Some(ss[0]) else None
  }

  /** `tokenString.split(" ")[1]`, with a missing piece read as "". */
  function BearerToken(s: string): string {
    var parts := Text.Split(s, ' ');
    if |parts| >= 2 then parts[1] else ""
  }

  /** Whether every claim the middleware needs is present and non-empty. */
  predicate Complete(c: AccessClaims) {
    Truthy(c.id) && Truthy(c.email) && Truthy(c.role)
  }

  /** `exec`: the bearer check, the token check, the claims check and the
      role check, in that order. `allowed` is the variant's role test. */
  function Authenticate(lower: Option<Header>, upper: Option<Header>, verify: string -> Result<AccessClaims>,
                        allowed: string -> bool): (d: Decision)
    ensures d.Refuse? ==> d.status == Unauthorized || d == Refuse(Forbidden, Restricted)
    ensures (TokenString(lower, upper).None? || !Text.StartsWith(TokenString(lower, upper).value, BearerPrefix)) ==>
              d == Refuse(Unauthorized, NoBearer)
    ensures d.Admit? <==>
              (TokenString(lower, upper).Some? && Text.StartsWith(TokenString(lower, upper).value, BearerPrefix) &&
               BearerToken(TokenString(lower, upper).value) != "" &&
               verify(BearerToken(TokenString(lower, upper).value)).Ok? &&
               Complete(verify(BearerToken(TokenString(lower, upper).value)).value) &&
               allowed(verify(BearerToken(TokenString(lower, upper).value)).value.role.value))
    ensures d.Admit? ==>
              var c := verify(BearerToken(TokenString(lower, upper).value)).value;
              d == Admit(c.email.value, c.id.value)
    ensures d == Refuse(Unauthorized, Expired) <==>
              (TokenString(lower, upper).Some? && Text.StartsWith(TokenString(lower, upper).value, BearerPrefix) &&
               BearerToken(TokenString(lower, upper).value) != "" &&
               verify(BearerToken(TokenString(lower, upper).value)).Err? &&
               verify(BearerToken(TokenString(lower, upper).value)).error.message == TokenExpired)
  {
    match TokenString(lower, upper)
    case None => Refuse(Unauthorized, NoBearer)
    case Some(s) =>
      if !Text.StartsWith(s, BearerPrefix) then Refuse(Unauthorized, NoBearer)
      else
        var token := BearerToken(s);
        if token == "" then Refuse(Unauthorized, TokenMissing)
        else
          match verify(token)
          case Err(e) =>
            if e.message == TokenExpired then Refuse(Unauthorized, Expired) else Refuse(Unauthorized, RefusedToken)
          case Ok(c) =>
            if !Complete(c) then Refuse(Unauthorized, IncompleteToken)
            else if !allowed(c.role.value) then Refuse(Forbidden, Restricted)
            else Admit(c.email.value, c.id.value)
  }

  /** `ClientAuthMiddleware`: only the client role passes. */
  function ClientMiddleware(lower: Option<Header>, upper: Option<Header>, verify: string -> Result<AccessClaims>): (d: Decision)
    ensures d.Admit? ==>
              (TokenString(lower, upper).Some? &&
               verify(BearerToken(TokenString(lower, upper).value)).Ok? &&
               verify(BearerToken(TokenString(lower, upper).value)).value.role == Some(RoleName(Client)))
  {
    Authenticate(lower, upper, verify, (role: string) => role == RoleName(Client))
  }

  /** The token a client sends as "Bearer <token>" is the token verified,
      for any token that is non-empty and has no space in it. */
  lemma BearerRoundTrip(token: string)
    requires token != "" && ' ' !in token
    ensures Text.StartsWith(BearerPrefix + token, BearerPrefix)
    ensures BearerToken(BearerPrefix + token) == token
  {
    assert BearerPrefix + token == "Bearer" + [' '] + token;
    Text.SplitAfter("Bearer", ' ', token);
    Text.SplitWithout(token, ' ');
    assert (BearerPrefix + token)[..|BearerPrefix|] == BearerPrefix;
  }

  /** A request carrying "Bearer <token>" for a complete client token is let
      through with the token's e-mail and id. */
  lemma ClientTokenAdmitted(token: string, verify: string -> Result<AccessClaims>, email: string, id: string)
    requires token != "" && ' ' !in token
    requires email != "" && id != ""
    requires verify(token) == Ok(AccessClaims(Some(email), Some(id), Some(RoleName(Client))))
    ensures ClientMiddleware(Some(Single(BearerPrefix + token)), None, verify) == Admit(email, id)
  {
    BearerRoundTrip(token);
  }

  /** A token of another role is refused with 403, however well-formed. */
  lemma OtherRoleForbidden(token: string, verify: string -> Result<AccessClaims>, email: string, id: string, role: Role)
    requires token != "" && ' ' !in token
    requires email != "" && id != "" && role != Client
    requires verify(token) == Ok(AccessClaims(Some(email), Some(id), Some(RoleName(role))))
    ensures ClientMiddleware(Some(Single(BearerPrefix + token)), None, verify) == Refuse(Forbidden, Restricted)
  {
    BearerRoundTrip(token);
  }
}
