/**
 * The two request gates. `protect` reads the Authorization header, takes
 * the second space-separated piece as the token, and asks the token
 * verifier for the identity it encodes; `authorize` admits a request only
 * when that identity's role is among the roles a route names.
 */
module AuthMiddleware {
  import opened Options
  import opened JsString

  /** The decoded token payload that `protect` stores as `req.user`. */
  datatype Identity = Identity(id: string, email: string, role: string)

  /** What a middleware does: call `next` with `req.user` set, or answer. */
  datatype Effect = Next(user: Identity) | Respond(code: nat, error: string)

  /** The token verifier (signature and expiry checks) seen from outside:
      the identity a possibly undefined token decodes to, or None where
      verification throws. */
  type Verifier = Option<string> -> Option<Identity>

  const NoTokenError := "Non autorisé - Pas de token"
  const InvalidTokenError := "Non autorisé - Token invalide"
  const RoleErrorPrefix := "Rôle "
  const RoleErrorSuffix := " non autorisé"

  /** The header is present, non-empty and starts with "Bearer". */
  predicate HasBearer(header: Option<string>) {
    Truthy(header) && StartsWith(header.value, "Bearer")
  }

  /** `authorization.split(' ')[1]`. */
  function BearerToken(header: string): Option<string> {
    Nth(Split(header, ' '), 1)
  }

  /** Everything `protect` does with one request, in order. */
  function ProtectEffects(header: Option<string>, verify: Verifier): seq<Effect> {
    if !HasBearer(header) then [Respond(401, NoTokenError)]
    else
      var token := BearerToken(header.value);
      match verify(token)
      case None => [Respond(401, InvalidTokenError)]
      case Some(user) =>
        if Truthy(token) then [Next(user)] else [Next(user), Respond(401, NoTokenError)]
  }

  /** The middleware: `token` starts undefined, is set only inside the
      Bearer branch, and is tested again after that branch. */
  method Protect(header: Option<string>, verify: Verifier) returns (effects: seq<Effect>)
    ensures effects == ProtectEffects(header, verify)
  {
    var token: Option<string> := None;
    effects := [];
    if Truthy(header) && StartsWith(header.value, "Bearer") {
      token := Nth(Split(header.value, ' '), 1);
      var decoded := verify(token);
      if decoded.None? {
        effects := effects + [Respond(401, InvalidTokenError)];
        return;
      }
      effects := effects + [Next(decoded.value)];
    }
    if !Truthy(token) {
      effects := effects + [Respond(401, NoTokenError)];
    }
  }

  /** The verifier refuses an undefined or empty token, as the JSON Web
      Token library does ("jwt must be provided"). */
  predicate RejectsFalsyTokens(verify: Verifier) {
    verify(None) == None && verify(Some("")) == None
  }

  /** `next` is called exactly when a Bearer header's token verifies, and
      then with the decoded identity; otherwise the answer is a 401 whose
      message tells a missing token from an invalid one. */
  lemma ProtectDecision(header: Option<string>, verify: Verifier)
    ensures var e := ProtectEffects(header, verify);
      && |e| >= 1
      && (e[0].Next? <==> HasBearer(header) && verify(BearerToken(header.value)).Some?)
      && (e[0].Next? ==> e[0].user == verify(BearerToken(header.value)).value)
      && (!HasBearer(header) ==> e == [Respond(401, NoTokenError)])
      && (HasBearer(header) && verify(BearerToken(header.value)).None? ==> e == [Respond(401, InvalidTokenError)])
  {
  }

  /** Exactly one outcome per request, unless the verifier accepts a falsy
      token: only then does `protect` call `next` and also answer 401. */
  lemma ExactlyOneOutcome(header: Option<string>, verify: Verifier)
    ensures |ProtectEffects(header, verify)| == 1 <==>
      !(HasBearer(header) && !Truthy(BearerToken(header.value)) && verify(BearerToken(header.value)).Some?)
    ensures RejectsFalsyTokens(verify) ==> |ProtectEffects(header, verify)| == 1
  {
    if HasBearer(header) && !Truthy(BearerToken(header.value)) && RejectsFalsyTokens(verify) {
      var token := BearerToken(header.value);
      assert token == None || token == Some("");
    }
  }

  /** The header "Bearer <token>" yields exactly <token> when the token
      holds no space. */
  lemma {:induction false} BearerHeaderToken(token: string)
    requires ' ' !in token
    ensures HasBearer(Some("Bearer " + token))
    ensures BearerToken("Bearer " + token) == Some(token)
  {
    var header := "Bearer " + token;
    assert header[..6] == "Bearer";
    assert header == "Bearer" + [' '] + token;
    SplitAfterFirst("Bearer", ' ', token);
    SplitWithoutSeparator(token, ' ');
    assert Split(header, ' ') == ["Bearer", token];
  }

  /** `authorize(...roles)`: `next` exactly when the caller's role is
      listed, otherwise 403 with a message naming that role. */
  function Authorize(roles: seq<string>, user: Identity): (e: Effect)
    ensures e.Next? <==> user.role in roles
    ensures e.Next? ==> e.user == user
    ensures e.Respond? ==> e.code == 403 && e.error == RoleErrorPrefix + user.role + RoleErrorSuffix
  {
    if user.role !in roles then Respond(403, RoleErrorPrefix + user.role + RoleErrorSuffix)
    else Next(user)
  }
}
