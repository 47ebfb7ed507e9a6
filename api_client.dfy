/** The HTTP client's interceptors (src/services/api.jsx): the request
    interceptor's Authorization header and the response interceptor's
    error handling. */
module ApiClient {
  import opened Wrappers

  /** `localStorage.getItem('token')`: `None` is `null`. */
  type StoredToken = Option<string>

  /** The header the request interceptor adds, if any: `if (token)` is
      false for a missing and for an empty token. */
  function AuthorizationHeader(token: StoredToken): (r: Option<string>)
    ensures r.Some? <==> token.Some? && token.value != ""
    ensures r.Some? ==> r.value == "Bearer " + token.value
  {
    if token.Some? && token.value != "" then Some("Bearer " + token.value) else None
  }

  /** The request headers after the request interceptor. */
  function WithAuthorization(headers: map<string, string>, token: StoredToken): (r: map<string, string>)
    ensures token.Some? && token.value != "" ==> "Authorization" in r && r["Authorization"] == "Bearer " + token.value
    ensures !(token.Some? && token.value != "") ==> r == headers
    ensures forall k :: k in headers && k != "Authorization" ==> k in r && r[k] == headers[k]
    ensures forall k :: k in r ==> k in headers || k == "Authorization"
  {
    var h := AuthorizationHeader(token);
    if h.Some? then headers["Authorization" := h.value] else headers
  }

  /** The server's reply as axios sees it: its status and `data.error`. */
  datatype ErrorResponse = ErrorResponse(status: int, dataError: Option<string>)

  /** An axios error: the response if one arrived, and whether a request
      was sent. */
  datatype ApiError = ApiError(response: Option<ErrorResponse>, requestSent: bool)

  const SessionExpired := "Session expired. Please login again."
  const NoPermission := "You do not have permission to access this resource."
  const GenericError := "An error occurred. Please try again."
  const NetworkError := "Network error. Please check your connection."
  const RequestError := "Request error. Please try again."

  /** `data?.error` is truthy. */
  predicate HasServerError(r: ErrorResponse) {
    r.dataError.Some? && r.dataError.value != ""
  }

  /** The toast the response interceptor shows for an error. */
  function ErrorToast(e: ApiError): string {
    if e.response.Some? then
      var r := e.response.value;
      if r.status == 401 then SessionExpired
      else if r.status == 403 then NoPermission
      else if HasServerError(r) then r.dataError.value
      else GenericError
    else if e.requestSent then NetworkError
    else RequestError
  }

  /** The classification, case by case. The checks run in the order 401,
      403, `data.error`; a 403 shows the permission message even when the
      server sent its own text. */
  lemma ErrorToastTable(e: ApiError)
    ensures e.response.Some? && e.response.value.status == 401 ==> ErrorToast(e) == SessionExpired
    ensures e.response.Some? && e.response.value.status == 403 ==> ErrorToast(e) == NoPermission
    ensures (e.response.Some? && e.response.value.status != 401 && e.response.value.status != 403
      && HasServerError(e.response.value)) ==> ErrorToast(e) == e.response.value.dataError.value
    ensures (e.response.Some? && e.response.value.status != 401 && e.response.value.status != 403
      && !HasServerError(e.response.value)) ==> ErrorToast(e) == GenericError
    ensures e.response.None? && e.requestSent ==> ErrorToast(e) == NetworkError
    ensures e.response.None? && !e.requestSent ==> ErrorToast(e) == RequestError
  {
  }

  /** The fixed messages. */
  predicate IsFixedMessage(m: string) {
    m in {SessionExpired, NoPermission, GenericError, NetworkError, RequestError}
  }

  /** When the server's own text is none of the fixed messages, each
      fixed message identifies its case exactly. */
  lemma ErrorToastIdentifiesCase(e: ApiError)
    requires e.response.Some? && e.response.value.dataError.Some? ==> !IsFixedMessage(e.response.value.dataError.value)
    ensures ErrorToast(e) == SessionExpired <==> e.response.Some? && e.response.value.status == 401
    ensures ErrorToast(e) == NoPermission <==> e.response.Some? && e.response.value.status == 403
    ensures ErrorToast(e) == NetworkError <==> e.response.None? && e.requestSent
    ensures ErrorToast(e) == RequestError <==> e.response.None? && !e.requestSent
    ensures !IsFixedMessage(ErrorToast(e)) <==>
      e.response.Some? && e.response.value.status != 401 && e.response.value.status != 403 && HasServerError(e.response.value)
  {
  }

  /** What the caller of a request observes. */
  datatype Outcome<T> = Resolved(value: T) | Rejected(error: ApiError)

  /** The browser state the interceptors touch. */
  class Browser {
    var token: StoredToken
    var location: string
    var toasts: seq<string>

    constructor (t: StoredToken, at: string)
      ensures token == t && location == at && toasts == []
    {
      token, location, toasts := t, at, [];
    }

    /** The error handler of the response interceptor: one toast, the
        token removed and a redirect to the login page on a 401, and the
        error rejected unchanged. */
    method OnResponseError<T>(e: ApiError) returns (o: Outcome<T>)
      modifies this
      ensures o == Rejected(e)
      ensures toasts == old(toasts) + [ErrorToast(e)]
      ensures e.response.Some? && e.response.value.status == 401 ==> token == None && location == "/login"
      ensures !(e.response.Some? && e.response.value.status == 401) ==> token == old(token) && location == old(location)
    {
      if e.response.Some? && e.response.value.status == 401 {
        token := None;
        location := "/login";
      }
      toasts := toasts + [ErrorToast(e)];
      o := Rejected(e);
    }
  }

  /** The success handler: the response passes through unchanged. */
  function OnResponse<T>(response: T): (o: Outcome<T>)
    ensures o.Resolved? && o.value == response
  {
    Resolved(response)
  }

  /** After a 401 no token is stored, so the next request carries no
      Authorization header. */
  method ExpiredSessionDropsHeader(t: string, headers: map<string, string>, data: Option<string>)
    returns (o: Outcome<int>, next: map<string, string>)
    ensures o == Rejected(ApiError(Some(ErrorResponse(401, data)), true))
    ensures next == headers
  {
    var b := new Browser(Some(t), "/dashboard");
    o := b.OnResponseError(ApiError(Some(ErrorResponse(401, data)), true));
    next := WithAuthorization(headers, b.token);
  }
}
