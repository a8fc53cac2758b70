/** The client's authentication endpoints: CSRF priming and the four state-changing POSTs. */
module AuthApi {
  import opened Wrappers
  import opened Remote
  import Cookies
  import Routes

  const CsrfCookieName := "csrftoken"

  /** `getCookie("csrftoken") || ""`: the value of the CSRF cookie, or the empty string when there is none. */
  function CsrfHeader(cookie: string): (h: string)
    ensures Cookies.GetCookie(cookie, CsrfCookieName).Some? ==> h == Cookies.GetCookie(cookie, CsrfCookieName).value && h != ""
    ensures Cookies.GetCookie(cookie, CsrfCookieName).None? ==> h == ""
  {
    Cookies.GetCookie(cookie, CsrfCookieName).GetOr("")
  }

  /** `fetchCSRFToken`'s GET reaches the view that sets the CSRF cookie, with credentials so the cookie is kept. */
  function CsrfPriming(): (r: ApiRequest)
    ensures Routes.Accepts(r, Routes.CsrfToken) && r.withCredentials && r.csrfHeader == None
  {
    ApiRequest(Get, "/auth/csrf/", NoBody, None, true)
  }

  /** `refreshToken` POSTs an empty object to the refresh view. */
  function RefreshRequest(cookie: string): (r: ApiRequest)
    ensures Routes.Accepts(r, Routes.TokenRefresh) && r.body == EmptyObject
  {
    ApiRequest(Post, "/auth/refresh/", EmptyObject, Some(CsrfHeader(cookie)), true)
  }

  /** `login` POSTs the credentials, unchanged, to the login view. */
  function LoginRequest(cookie: string, email: string, password: string): (r: ApiRequest)
    ensures Routes.Accepts(r, Routes.LoginView) && r.body == Credentials(email, password)
  {
    ApiRequest(Post, "/auth/login/", Credentials(email, password), Some(CsrfHeader(cookie)), true)
  }

  /** `register` POSTs the three fields, unchanged, to the register view. */
  function RegisterRequest(cookie: string, username: string, email: string, password: string): (r: ApiRequest)
    ensures Routes.Accepts(r, Routes.Register) && r.body == Registration(username, email, password)
  {
    ApiRequest(Post, "/auth/register/", Registration(username, email, password), Some(CsrfHeader(cookie)), true)
  }

  /** `logout` POSTs an empty object to the logout view. */
  function LogoutRequest(cookie: string): (r: ApiRequest)
    ensures Routes.Accepts(r, Routes.LogoutView) && r.body == EmptyObject
  {
    ApiRequest(Post, "/auth/logout/", EmptyObject, Some(CsrfHeader(cookie)), true)
  }

  /**
   * Every state-changing authentication call POSTs with credentials and
   * carries `X-CSRFToken`, whose value is the `csrftoken` cookie's value, or
   * "" when the cookie string holds none.
   */
  lemma StateChangingCallsCarryCsrf(cookie: string, username: string, email: string, password: string)
    ensures forall r :: r in [RefreshRequest(cookie), LoginRequest(cookie, email, password),
                              RegisterRequest(cookie, username, email, password), LogoutRequest(cookie)] ==>
      r.verb == Post && r.withCredentials && r.csrfHeader.Some?
      && r.csrfHeader.value == (if Cookies.GetCookie(cookie, CsrfCookieName).Some?
                                then Cookies.GetCookie(cookie, CsrfCookieName).value else "")
  {
  }

  /**
   * When the cookie string is a well-formed "k1=v1; k2=v2" jar, the header
   * carries the value of its first `csrftoken` pair, or "" when there is none.
   */
  lemma CsrfHeaderFromJar(jar: seq<Cookies.Pair>)
    requires forall i :: 0 <= i < |jar| ==> Cookies.Recoverable(jar[i])
    ensures CsrfHeader(Cookies.Serialize(jar)) == Cookies.FirstValue(jar, CsrfCookieName).GetOr("")
  {
    Cookies.GetCookieSerialize(jar, CsrfCookieName);
  }
}
