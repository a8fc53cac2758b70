/**
 * The cookie-to-header JWT middleware: it resolves the request's user
 * from the `access` cookie and hands the request on exactly once.
 */
module JwtMiddleware {
  import opened Wrappers

  /** `request.user`: not yet set by this middleware, the anonymous user, or a user by id. */
  datatype RequestUser = Unresolved | Anonymous | SignedIn(id: int)

  /** What the next handler sees of a request. */
  datatype RequestView = RequestView(cookies: map<string, string>, meta: map<string, string>, user: RequestUser)

  const AuthorizationKey := "HTTP_AUTHORIZATION"

  class HttpRequest {
    var cookies: map<string, string>
    var meta: map<string, string>
    var user: RequestUser

    constructor (cookies: map<string, string>, meta: map<string, string>)
      ensures this.cookies == cookies && this.meta == meta && user == Unresolved
    {
      this.cookies := cookies;
      this.meta := meta;
      user := Unresolved;
    }

    function View(): (v: RequestView)
      reads this
      ensures v.cookies == cookies && v.meta == meta && v.user == user
    {
      RequestView(cookies, meta, user)
    }
  }

  /** The rest of the handler chain (`get_response`): it records every request it is called with. */
  class Downstream {
    var calls: seq<RequestView>
    /** The response it answers with, as an abstract value. */
    const answer: int

    constructor (answer: int)
      ensures calls == [] && this.answer == answer
    {
      calls := [];
      this.answer := answer;
    }

    method Respond(request: HttpRequest) returns (response: int)
      modifies this`calls
      ensures calls == old(calls) + [request.View()]
      ensures response == answer
    {
      calls := calls + [request.View()];
      response := answer;
    }
  }

  /**
   * The user and headers after the middleware, as a function of the
   * request: `userIdOf` is the token check (`None` when the token does not
   * validate), `userIds` the ids present in the user table.
   */
  function Authenticated(r: RequestView, userIdOf: string -> Option<int>, userIds: set<int>): (a: RequestView)
    ensures a.cookies == r.cookies
    ensures ("access" !in r.cookies || r.cookies["access"] == "") ==> a == r
    ensures "access" in r.cookies && r.cookies["access"] != "" ==>
              var t := r.cookies["access"];
              if userIdOf(t).Some? && userIdOf(t).value in userIds
              then a.user == SignedIn(userIdOf(t).value) && a.meta == r.meta[AuthorizationKey := "Bearer " + t]
              else a.user == Anonymous && a.meta == r.meta
  {
    if "access" !in r.cookies || r.cookies["access"] == "" then r
    else
      var t := r.cookies["access"];
      var id := userIdOf(t);
      if id.Some? && id.value in userIds
      then r.(user := SignedIn(id.value), meta := r.meta[AuthorizationKey := "Bearer " + t])
      else r.(user := Anonymous)
  }

  /** A signed-in user always comes with the bearer header carrying the cookie's token unchanged. */
  lemma SignedInCarriesBearer(r: RequestView, userIdOf: string -> Option<int>, userIds: set<int>)
    ensures var a := Authenticated(r, userIdOf, userIds);
            a.user.SignedIn? && !r.user.SignedIn? ==>
              "access" in r.cookies && AuthorizationKey in a.meta
              && a.meta[AuthorizationKey] == "Bearer " + r.cookies["access"]
              && a.user.id in userIds && userIdOf(r.cookies["access"]) == Some(a.user.id)
  {
  }

  class JwtAuthenticationMiddleware {
    const getResponse: Downstream

    constructor (getResponse: Downstream)
      ensures this.getResponse == getResponse
    {
      this.getResponse := getResponse;
    }

    /** `__call__`. */
    method Call(request: HttpRequest, userIdOf: string -> Option<int>, userIds: set<int>) returns (response: int)
      modifies request`user, request`meta, getResponse`calls
      ensures request.View() == Authenticated(old(request.View()), userIdOf, userIds)
      ensures getResponse.calls == old(getResponse.calls) + [request.View()]
      ensures response == getResponse.answer
    {
      if "access" in request.cookies && request.cookies["access"] != "" {
        var token := request.cookies["access"];
        var id := userIdOf(token);
        if id.Some? && id.value in userIds {
          request.user := SignedIn(id.value);
          request.meta := request.meta[AuthorizationKey := "Bearer " + token];
        } else {
          request.user := Anonymous;
        }
      }
      response := getResponse.Respond(request);
    }
  }
}
