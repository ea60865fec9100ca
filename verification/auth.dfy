/**
  The `fetchuser` middleware (middlewares/fetchuser.js): extracts a bearer
  token from the Authorization header, verifies it, and either answers
  401 or records the authenticated user on the request and passes it on.
  Token verification (`jwt.verify` with the server secret) is a parameter.
 */
module Auth {
  import opened Common
  import opened Text

  /** `{ id }`, the user object the tokens carry. */
  datatype Principal = Principal(id: UserId)

  /** A decoded token payload; `user` may be absent in a validly signed token. */
  datatype Payload = Payload(user: Option<Principal>)

  /** `jwt.verify`: the decoded payload, or `None` when it throws. */
  type Verifier = string -> Option<Payload>

  /** `jwt.sign` with the server secret. */
  type Signer = Payload -> string

  /**
    What the token library is relied on for: a token it signed verifies to
    the signed payload, and signed tokens are never empty.
   */
  ghost predicate SignVerifies(sign: Signer, verify: Verifier)
  {
    forall p :: verify(sign(p)) == Some(p) && sign(p) != ""
  }

  const BearerPrefix := "Bearer "

  /** `req.header("Authorization")?.replace("Bearer ", "") ?? ""`. */
  function ExtractToken(header: Option<string>): (token: string)
    ensures header.None? ==> token == ""
    ensures header.Some? ==> |token| <= |header.value|
  {
    match header
    case None => ""
    case Some(h) => ReplaceFirst(h, BearerPrefix, "")
  }

  datatype Decision = MissingToken | InvalidToken | Pass(user: Option<Principal>)

  /** The gate's decision: empty token, failed verification, or the payload's user. */
  function Authenticate(header: Option<string>, verify: Verifier): (d: Decision)
    ensures d == MissingToken <==> ExtractToken(header) == ""
    ensures d == InvalidToken <==> ExtractToken(header) != "" && verify(ExtractToken(header)).None?
    ensures d.Pass? ==> verify(ExtractToken(header)) == Some(Payload(d.user))
  {
    var token := ExtractToken(header);
    if token == "" then MissingToken
    else match verify(token)
      case None => InvalidToken
      case Some(payload) => Pass(payload.user)
  }

  /** A missing header yields the empty token and the missing-token answer. */
  lemma MissingHeader(verify: Verifier)
    ensures ExtractToken(None) == ""
    ensures Authenticate(None, verify) == MissingToken
  {
  }

  /** A header of exactly "Bearer " also yields the empty token. */
  lemma BareBearer(verify: Verifier)
    ensures ExtractToken(Some(BearerPrefix)) == ""
    ensures Authenticate(Some(BearerPrefix), verify) == MissingToken
  {
    ReplaceFirstPrefix(BearerPrefix, "", "");
  }

  /** Extraction deletes the first "Bearer " wherever it is and keeps the rest of the header. */
  lemma ExtractDeletesFirstBearer(h: string, i: nat)
    requires OccursAt(h, BearerPrefix, i)
    requires forall j :: 0 <= j < i ==> !OccursAt(h, BearerPrefix, j)
    ensures ExtractToken(Some(h)) == h[..i] + h[i + |BearerPrefix|..]
  {
    ReplaceFirstAt(h, BearerPrefix, "", i);
  }

  /** A header without "Bearer " in it is verified verbatim. */
  lemma HeaderWithoutBearer(h: string, verify: Verifier)
    requires forall j :: !OccursAt(h, BearerPrefix, j)
    requires h != ""
    ensures ExtractToken(Some(h)) == h
    ensures Authenticate(Some(h), verify) == (if verify(h).None? then InvalidToken else Pass(verify(h).value.user))
  {
    ReplaceFirstAbsent(h, BearerPrefix, "");
  }

  /** A token sent as "Bearer <token>" is extracted intact, whatever it contains. */
  lemma BearerTokenExtracted(token: string)
    ensures ExtractToken(Some(BearerPrefix + token)) == token
  {
    ReplaceFirstPrefix(BearerPrefix, token, "");
  }

  /** The 401 body. */
  datatype Response = Response(status: int, error: string)

  const MissingTokenError := "Accès refusé, token manquant"
  const InvalidTokenError := "Token invalide"

  /** The parts of an Express request and response that the middleware touches. */
  class Request {
    const authorization: Option<string>
    var user: Option<Principal>
    var nextCalls: nat
    var response: Option<Response>

    constructor (authorization: Option<string>)
      ensures this.authorization == authorization
      ensures user.None? && nextCalls == 0 && response.None?
    {
      this.authorization := authorization;
      user := None;
      nextCalls := 0;
      response := None;
    }
  }

  /** `fetchuser(req, res, next)`; `next()` is recorded by counting its calls. */
  method FetchUser(req: Request, verify: Verifier)
    modifies req
    ensures var d := Authenticate(req.authorization, verify);
      match d
      case MissingToken =>
        req.response == Some(Response(401, MissingTokenError)) &&
        req.user == old(req.user) && req.nextCalls == old(req.nextCalls)
      case InvalidToken =>
        req.response == Some(Response(401, InvalidTokenError)) &&
        req.user == old(req.user) && req.nextCalls == old(req.nextCalls)
      case Pass(user) =>
        req.user == user && req.nextCalls == old(req.nextCalls) + 1 && req.response == old(req.response)
  {
    var token := ExtractToken(req.authorization);
    if token == "" {
      req.response := Some(Response(401, MissingTokenError));
      return;
    }
    var decoded := verify(token);
    if decoded.None? {
      req.response := Some(Response(401, InvalidTokenError));
    } else {
      req.user := decoded.value.user;
      req.nextCalls := req.nextCalls + 1;
    }
  }
}
