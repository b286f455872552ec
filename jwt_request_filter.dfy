/**
 * The per-request authentication filter (security/JwtRequestFilter.java): which
 * requests pass unchecked, how the bearer token is read, and when the security
 * context gains an authentication. Token parsing, account loading and token
 * validation belong to other components; they are parameters here, each
 * returning a value or throwing.
 */
module JwtRequestFilter {
  import opened Wrappers
  import Text
  import ApiClient

  /** The parts of an HTTP request the filter reads; `authorization` is the header, if sent. */
  datatype Request = Request(path: string, verb: string, authorization: Option<string>)

  /** How the filter treats a request. */
  datatype Route = Preflight | PublicAuth | PublicFlashcards | Protected

  /**
   * The filter's early exits: OPTIONS first, then the auth endpoints, then the
   * flashcard endpoints. The source also tests `path.equals(prefix)`, which
   * `startsWith` already covers, so the contract states the prefixes alone.
   */
  function RouteOf(req: Request): (r: Route)
    ensures r == Preflight <==> req.verb == "OPTIONS"
    ensures r == PublicAuth <==> req.verb != "OPTIONS" && Text.StartsWith(req.path, "/api/auth")
    ensures r == PublicFlashcards <==>
              req.verb != "OPTIONS" && !Text.StartsWith(req.path, "/api/auth")
              && Text.StartsWith(req.path, "/api/flashcards")
  {
    if req.verb == "OPTIONS" then Preflight
    else if Text.StartsWith(req.path, "/api/auth") || req.path == "/api/auth" then PublicAuth
    else if Text.StartsWith(req.path, "/api/flashcards") || req.path == "/api/flashcards" then PublicFlashcards
    else Protected
  }

  /** The public prefixes are not whole path segments: "/api/authority" passes unchecked too. */
  lemma PublicPrefixIsNotASegment()
    ensures RouteOf(Request("/api/authority", "GET", None)) == PublicAuth
    ensures RouteOf(Request("/api/flashcardsx/admin", "DELETE", None)) == PublicFlashcards
  {
    assert "/api/authority"[..9] == "/api/auth";
    assert "/api/flashcardsx/admin"[..9][5] != "/api/auth"[5];
    assert "/api/flashcardsx/admin"[..15] == "/api/flashcards";
  }

  /** The token of an `Authorization` header: everything after a leading "Bearer ". */
  function BearerToken(header: Option<string>): (jwt: Option<string>)
    ensures jwt.Some? <==> header.Some? && Text.StartsWith(header.value, "Bearer ")
    ensures jwt.Some? ==> header.value == "Bearer " + jwt.value
  {
    if header.Some? && Text.StartsWith(header.value, "Bearer ") then Some(header.value[7..]) else None
  }

  /** Reading a bearer header gives back the token it was built from. */
  lemma BearerRoundTrip(token: string)
    ensures BearerToken(Some("Bearer " + token)) == Some(token)
  {
    assert ("Bearer " + token)[..7] == "Bearer ";
    assert ("Bearer " + token)[7..] == token;
  }

  /** The credential the client attaches is the one this filter reads. */
  lemma ClientCredentialIsRead(h: map<string, string>, token: Option<string>)
    requires ApiClient.IsAuthHeaders(h, token) && ApiClient.HasToken(token)
    ensures "Authorization" in h && BearerToken(Some(h["Authorization"])) == Some(token.value)
  {
    BearerRoundTrip(token.value);
  }

  /** A call into another component: a value, or an exception the filter catches. */
  datatype Call<T> = Returns(value: T) | Throws

  /** The account as the user-details service loads it. */
  datatype UserDetails = UserDetails(username: string, authorities: set<string>)

  /** The authentication token the filter installs: the account, no credentials, its authorities. */
  datatype Authentication = Authentication(principal: UserDetails, authorities: set<string>)

  /** The request's security context. */
  class SecurityContext {
    var authentication: Option<Authentication>

    constructor (a: Option<Authentication>)
      ensures authentication == a
    {
      authentication := a;
    }
  }

  /**
   * The authentication the filter installs, if any. It needs a protected route,
   * a bearer token whose username can be extracted, no authentication already in
   * the context, an account that loads and a token that validates against it.
   */
  function Installed(req: Request, alreadyAuthenticated: bool,
                     extractUsername: string -> Call<Option<string>>,
                     loadUser: string -> Call<UserDetails>,
                     validateToken: (string, UserDetails) -> Call<bool>): (a: Option<Authentication>)
    ensures a.Some? <==>
      && RouteOf(req) == Protected && !alreadyAuthenticated
      && BearerToken(req.authorization).Some?
      && extractUsername(BearerToken(req.authorization).value).Returns?
      && extractUsername(BearerToken(req.authorization).value).value.Some?
      && loadUser(extractUsername(BearerToken(req.authorization).value).value.value).Returns?
      && validateToken(BearerToken(req.authorization).value,
                       loadUser(extractUsername(BearerToken(req.authorization).value).value.value).value)
         == Returns(true)
    ensures a.Some? ==>
      a.value.principal == loadUser(extractUsername(BearerToken(req.authorization).value).value.value).value
      && a.value.authorities == a.value.principal.authorities
  {
    if RouteOf(req) != Protected || alreadyAuthenticated then None
    else match BearerToken(req.authorization)
      case None => None
      case Some(jwt) =>
        match extractUsername(jwt)
        case Throws => None
        case Returns(None) => None
        case Returns(Some(username)) =>
          match loadUser(username)
          case Throws => None
          case Returns(details) =>
            if validateToken(jwt, details) == Returns(true)
            then Some(Authentication(details, details.authorities))
            else None
  }

  /** Requests that pass early never gain an authentication, whatever they carry. */
  lemma PublicRoutesNeverAuthenticate(req: Request, alreadyAuthenticated: bool,
                                      extractUsername: string -> Call<Option<string>>,
                                      loadUser: string -> Call<UserDetails>,
                                      validateToken: (string, UserDetails) -> Call<bool>)
    requires RouteOf(req) != Protected || req.authorization.None?
    ensures Installed(req, alreadyAuthenticated, extractUsername, loadUser, validateToken) == None
  {
  }

  /**
   * `doFilterInternal`: the request is passed down the chain exactly once on
   * every path, exceptions from the token checks included; the context gains the
   * installed authentication, if any, and is otherwise left as it was.
   * `chainCalls` counts the calls of `filterChain.doFilter` the request makes.
   */
  method DoFilterInternal(req: Request, context: SecurityContext,
                          extractUsername: string -> Call<Option<string>>,
                          loadUser: string -> Call<UserDetails>,
                          validateToken: (string, UserDetails) -> Call<bool>)
    returns (chainCalls: nat)
    modifies context
    ensures chainCalls == 1
    ensures var a := Installed(req, old(context.authentication).Some?, extractUsername, loadUser, validateToken);
            context.authentication == if a.Some? then a else old(context.authentication)
  {
    chainCalls := 0;
    if req.verb == "OPTIONS" {
      chainCalls := chainCalls + 1;
      return;
    }
    if Text.StartsWith(req.path, "/api/auth") || req.path == "/api/auth" {
      chainCalls := chainCalls + 1;
      return;
    }
    if Text.StartsWith(req.path, "/api/flashcards") || req.path == "/api/flashcards" {
      chainCalls := chainCalls + 1;
      return;
    }
    var username: Option<string> := None;
    var jwt: Option<string> := None;
    if req.authorization.Some? && Text.StartsWith(req.authorization.value, "Bearer ") {
      jwt := Some(req.authorization.value[7..]);
      var extracted := extractUsername(jwt.value);
      if extracted.Returns? {
        username := extracted.value;
      }
    }
    if username.Some? && context.authentication.None? {
      var loaded := loadUser(username.value);
      if loaded.Returns? {
        var details := loaded.value;
        if validateToken(jwt.value, details) == Returns(true) {
          context.authentication := Some(Authentication(details, details.authorities));
        }
      }
    }
    chainCalls := chainCalls + 1;
  }
}
