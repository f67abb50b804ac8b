/** The MangaDex client (md_api.py): a session token, a refresh token and
    the session's expiration time, renewed through the `/auth` endpoints,
    and the argument list of every authenticated request. The clock is an
    integer number of seconds passed in as `now`; the authentication
    endpoint is a function from the call made to the decoded response; the
    final HTTP request is modelled by the keyword arguments it is given. */
module MdApi {
  import opened Wrappers
  import opened PyDict

  const ApiUrl: string := "https://api.mangadex.org/"
  /** A session token is valid for 15 minutes after it is issued. */
  const SessionValidity: int := 15 * 60
  /** Every call uses a timeout of 5 seconds. */
  const Timeout: int := 5

  const LoginUrl: string := ApiUrl + "/auth/login"
  const RefreshUrl: string := ApiUrl + "/auth/refresh"

  /** A JSON-like argument value. */
  datatype Value =
    | Null
    | Text(text: string)
    | Number(number: int)
    | Table(entries: Dict<string, Value>)
    | List(items: seq<Value>)

  /** The `token` object of a login or refresh response; a field is None
      when the response lacks that key. */
  datatype TokenFields = TokenFields(session: Option<string>, refresh: Option<string>)

  /** A login or refresh response; `token` is None when it lacks that key. */
  datatype LoginData = LoginData(token: Option<TokenFields>)

  /** The JSON body of an `/auth` call. */
  datatype AuthBody =
    | Credentials(username: string, password: string)
    | RefreshBody(refreshToken: string)

  /** One call to an `/auth` endpoint. */
  datatype AuthCall = AuthCall(url: string, body: AuthBody, timeout: int)

  /** The authentication endpoints, as seen by the client. */
  type AuthServer = AuthCall -> LoginData

  /** The exceptions the client raises on its own: a missing key in a
      response (KeyError), an attribute read before it was ever assigned
      (AttributeError), or a keyword argument given twice (TypeError). */
  datatype ApiError =
    | MissingKey(key: string)
    | UnsetAttribute(name: string)
    | DuplicateArgument(name: string)

  /** The client's three attributes; None until first assigned. */
  datatype Session = Session(sessionToken: Option<string>, refreshToken: Option<string>, sessionExpiration: Option<int>)

  const Unset: Session := Session(None, None, None)

  /** An expiration is only ever recorded together with both tokens. */
  predicate Consistent(s: Session)
  {
    s.sessionExpiration.Some? ==> s.sessionToken.Some? && s.refreshToken.Some?
  }

  // ---------------------------------------------------------------------
  // The credential exchange, as functions of the session

  /** md_api.py:27-31. The attributes are assigned one after the other, so
      a response without a refresh token leaves the new session token in
      place before failing. */
  function ParseLogin(s: Session, data: LoginData, now: int): (r: (Session, Option<ApiError>))
    ensures r.1.None? <==> data.token.Some? && data.token.value.session.Some? && data.token.value.refresh.Some?
    ensures r.1.None? ==>
      r.0 == Session(data.token.value.session, data.token.value.refresh, Some(now + SessionValidity))
    ensures r.1.Some? ==>
      && r.0.refreshToken == s.refreshToken
      && r.0.sessionExpiration == s.sessionExpiration
      && (r.0.sessionToken == s.sessionToken || r.1 == Some(MissingKey("refresh")))
    ensures Consistent(s) ==> Consistent(r.0)
  {
    match data.token
    case None => (s, Some(MissingKey("token")))
    case Some(tokens) =>
      match tokens.session
      case None => (s, Some(MissingKey("session")))
      case Some(session) =>
        match tokens.refresh
        case None => (s.(sessionToken := Some(session)), Some(MissingKey("refresh")))
        case Some(refresh) => (Session(Some(session), Some(refresh), Some(now + SessionValidity)), None)
  }

  /** md_api.py:33-38: exchange the stored refresh token. The calls made to
      the authentication endpoint are returned alongside. */
  function Refresh(s: Session, now: int, auth: AuthServer): (r: (Session, Option<ApiError>, seq<AuthCall>))
    ensures s.refreshToken.None? ==> r == (s, Some(UnsetAttribute("refresh_token")), [])
    ensures s.refreshToken.Some? ==>
      r.2 == [AuthCall(RefreshUrl, RefreshBody(s.refreshToken.value), Timeout)]
    ensures s.refreshToken.Some? ==> (r.0, r.1) == ParseLogin(s, auth(r.2[0]), now)
    ensures r.1.None? ==> r.0.sessionExpiration == Some(now + SessionValidity) && r.0.sessionToken.Some?
    ensures Consistent(s) ==> Consistent(r.0)
  {
    match s.refreshToken
    case None => (s, Some(UnsetAttribute("refresh_token")), [])
    case Some(token) =>
      var call := AuthCall(RefreshUrl, RefreshBody(token), Timeout);
      var (s', err) := ParseLogin(s, auth(call), now);
      (s', err, [call])
  }

  /** md_api.py:23-25: store the given refresh token, then refresh. */
  function LoadRefreshToken(s: Session, token: string, now: int, auth: AuthServer): (r: (Session, Option<ApiError>, seq<AuthCall>))
    ensures r.2 == [AuthCall(RefreshUrl, RefreshBody(token), Timeout)]
    ensures (r.0, r.1) == ParseLogin(s.(refreshToken := Some(token)), auth(AuthCall(RefreshUrl, RefreshBody(token), Timeout)), now)
    ensures r.1.Some? ==> r.0.refreshToken == Some(token)
    ensures Consistent(s) ==> Consistent(r.0)
  {
    Refresh(s.(refreshToken := Some(token)), now, auth)
  }

  /** md_api.py:12-21: post the credentials, store the response, and
      return the refresh token it stored. */
  function Login(s: Session, user: string, password: string, now: int, auth: AuthServer): (r: (Session, Result<string, ApiError>, AuthCall))
    ensures r.2 == AuthCall(LoginUrl, Credentials(user, password), Timeout)
    ensures r.1.Success? ==> r.0.refreshToken == Some(r.1.value) && r.0.sessionExpiration == Some(now + SessionValidity)
    ensures r.1.Success? <==> ParseLogin(s, auth(r.2), now).1.None?
    ensures r.0 == ParseLogin(s, auth(r.2), now).0
    ensures r.1.Failure? ==> Some(r.1.error) == ParseLogin(s, auth(r.2), now).1
    ensures Consistent(s) ==> Consistent(r.0)
  {
    var call := AuthCall(LoginUrl, Credentials(user, password), Timeout);
    var (s', err) := ParseLogin(s, auth(call), now);
    if err.Some? then (s', Failure(err.value), call)
    else (s', Success(s'.refreshToken.value), call)
  }

  // ---------------------------------------------------------------------
  // Requests

  /** `endpoint.removeprefix("/")`. */
  function StripLeadingSlash(endpoint: string): (r: string)
    ensures |endpoint| > 0 && endpoint[0] == '/' ==> r == endpoint[1..]
    ensures !(|endpoint| > 0 && endpoint[0] == '/') ==> r == endpoint
  {
    if |endpoint| > 0 && endpoint[0] == '/' then endpoint[1..] else endpoint
  }

  /** The arguments `request` supplies before the caller's own
      (md_api.py:43-49). */
  function DefaultArgs(verb: string, endpoint: string, sessionToken: string): Dict<string, Value>
  {
    [ ("method", Text(verb)),
      ("url", Text(ApiUrl + StripLeadingSlash(endpoint))),
      ("headers", Table([("Authorization", Text("Bearer " + sessionToken))])),
      ("timeout", Number(Timeout)) ]
  }

  /** The keyword arguments `request(self, method, endpoint, **kwargs)` can
      collect: a keyword naming one of its parameters binds to that
      parameter instead (or is rejected before the body runs). */
  predicate RequestKwargs(kwargs: Dict<string, Value>)
  {
    !HasKey(kwargs, "self") && !HasKey(kwargs, "method") && !HasKey(kwargs, "endpoint")
  }

  /** The same for `get(self, endpoint, params=None, **kwargs)` and
      `post(self, endpoint, json=None, **kwargs)`, `name` being `params` or
      `json`. */
  predicate ForwardKwargs(extra: Dict<string, Value>, name: string)
  {
    !HasKey(extra, "self") && !HasKey(extra, "endpoint") && !HasKey(extra, name)
  }

  /** md_api.py:40-53: refresh first when the session has expired, then
      build the call's keyword arguments, the caller's winning over the
      defaults. The result is those arguments. */
  function Request(s: Session, verb: string, endpoint: string, kwargs: Dict<string, Value>, now: int, auth: AuthServer)
    : (r: (Session, Result<Dict<string, Value>, ApiError>, seq<AuthCall>))
    requires RequestKwargs(kwargs)
    ensures s.sessionExpiration.None? ==> r == (s, Failure(UnsetAttribute("session_expiration")), [])
    ensures s.sessionExpiration.Some? && now <= s.sessionExpiration.value ==> r.0 == s && r.2 == []
    ensures s.sessionExpiration.Some? && now > s.sessionExpiration.value ==>
      && r.2 == Refresh(s, now, auth).2
      && r.0 == Refresh(s, now, auth).0
      && (Refresh(s, now, auth).1.Some? ==> r.1 == Failure(Refresh(s, now, auth).1.value))
    ensures s.sessionExpiration.Some? && (now <= s.sessionExpiration.value || Refresh(s, now, auth).1.None?) ==>
      (r.1.Success? <==> r.0.sessionToken.Some?)
    ensures Consistent(s) && s.sessionExpiration.Some? ==>
      |r.2| == (if now > s.sessionExpiration.value then 1 else 0)
    ensures Consistent(s) ==> Consistent(r.0)
    ensures r.1.Success? ==>
      && r.0.sessionExpiration.Some? && now <= r.0.sessionExpiration.value
      && r.0.sessionToken.Some?
      && r.1.value == Update(DefaultArgs(verb, endpoint, r.0.sessionToken.value), kwargs)
  {
    match s.sessionExpiration
    case None => (s, Failure(UnsetAttribute("session_expiration")), [])
    case Some(expiration) =>
      var (s', err, calls) := if now > expiration then Refresh(s, now, auth) else (s, None, []);
      if err.Some? then (s', Failure(err.value), calls)
      else match s'.sessionToken
        case None => (s', Failure(UnsetAttribute("session_token")), calls)
        case Some(token) => (s', Success(Update(DefaultArgs(verb, endpoint, token), kwargs)), calls)
  }

  /** md_api.py:55-57 and 59-61: `get` and `post` put `params` or `json`
      first and forward everything to `request`; a caller's `method`
      keyword then reaches `request` twice. */
  function Forward(s: Session, verb: string, endpoint: string, name: string, arg: Value, extra: Dict<string, Value>, now: int, auth: AuthServer)
    : (r: (Session, Result<Dict<string, Value>, ApiError>, seq<AuthCall>))
    requires name in {"params", "json"}
    requires ForwardKwargs(extra, name)
    ensures HasKey(extra, "method") ==> r == (s, Failure(DuplicateArgument("method")), [])
    ensures !HasKey(extra, "method") ==>
      && RequestKwargs([(name, arg)] + extra)
      && r == Request(s, verb, endpoint, [(name, arg)] + extra, now, auth)
  {
    if HasKey(extra, "method") then (s, Failure(DuplicateArgument("method")), [])
    else
      ForwardedKwargs(name, arg, extra);
      Request(s, verb, endpoint, [(name, arg)] + extra, now, auth)
  }

  /** Putting `params` or `json` in front of the caller's keywords keeps
      them acceptable to `request`, and keeps their keys distinct. */
  lemma ForwardedKwargs(name: string, arg: Value, extra: Dict<string, Value>)
    requires name in {"params", "json"}
    requires ForwardKwargs(extra, name) && !HasKey(extra, "method")
    ensures RequestKwargs([(name, arg)] + extra)
    ensures DistinctKeys(extra) ==> DistinctKeys([(name, arg)] + extra)
  {
    var kwargs := [(name, arg)] + extra;
    forall i | 1 <= i < |kwargs|
      ensures kwargs[i].0 != name && kwargs[i].0 !in {"self", "method", "endpoint"}
    {
      assert kwargs[i] == extra[i - 1];
    }
  }

  // ---------------------------------------------------------------------
  // Properties

  /** What the default arguments hold under each key. */
  lemma DefaultArgsGet(verb: string, endpoint: string, token: string, k: string)
    ensures Get(DefaultArgs(verb, endpoint, token), k) ==
      if k == "method" then Some(Text(verb))
      else if k == "url" then Some(Text(ApiUrl + StripLeadingSlash(endpoint)))
      else if k == "headers" then Some(Table([("Authorization", Text("Bearer " + token))]))
      else if k == "timeout" then Some(Number(Timeout))
      else None
  {
    var d := DefaultArgs(verb, endpoint, token);
    var d1, d2, d3 := d[1..], d[2..], d[3..];
    assert d1[1..] == d2 && d2[1..] == d3 && d3[1..] == [];
    assert Get(d3, k) == if k == "timeout" then Some(Number(Timeout)) else None;
    assert Get(d2, k) == if k == "headers" then Some(d2[0].1) else Get(d3, k);
    assert Get(d1, k) == if k == "url" then Some(d1[0].1) else Get(d2, k);
  }

  /** The call carries the session token as it stands after the optional
      refresh, as a bearer credential; the URL is the API root followed by
      the endpoint without its leading slash; and each keyword the caller
      gives replaces the default of that name, the rest keeping theirs. */
  lemma RequestArguments(s: Session, verb: string, endpoint: string, kwargs: Dict<string, Value>, now: int, auth: AuthServer, k: string)
    requires RequestKwargs(kwargs) && DistinctKeys(kwargs)
    requires Request(s, verb, endpoint, kwargs, now, auth).1.Success?
    ensures var r := Request(s, verb, endpoint, kwargs, now, auth);
      var token := r.0.sessionToken.value;
      Get(r.1.value, k) ==
        if HasKey(kwargs, k) then Get(kwargs, k)
        else if k == "method" then Some(Text(verb))
        else if k == "url" then Some(Text(ApiUrl + StripLeadingSlash(endpoint)))
        else if k == "headers" then Some(Table([("Authorization", Text("Bearer " + token))]))
        else if k == "timeout" then Some(Number(Timeout))
        else None
  {
    var r := Request(s, verb, endpoint, kwargs, now, auth);
    var token := r.0.sessionToken.value;
    GetUpdate(DefaultArgs(verb, endpoint, token), kwargs, k);
    DefaultArgsGet(verb, endpoint, token, k);
  }

  /** After an expired session is refreshed, the bearer token a request
      carries is the session token the refresh response handed out. */
  lemma RefreshedBearer(s: Session, verb: string, endpoint: string, kwargs: Dict<string, Value>, now: int, auth: AuthServer)
    requires RequestKwargs(kwargs)
    requires s.sessionExpiration.Some? && now > s.sessionExpiration.value
    requires Request(s, verb, endpoint, kwargs, now, auth).1.Success?
    ensures s.refreshToken.Some?
    ensures var data := auth(AuthCall(RefreshUrl, RefreshBody(s.refreshToken.value), Timeout));
      && data.token.Some?
      && Request(s, verb, endpoint, kwargs, now, auth).0.sessionToken == data.token.value.session
  {
    var refreshed := Refresh(s, now, auth);
    assert refreshed.1.None?;
  }

  /** The `method` entry can never be replaced by a caller: it is always
      the one `get` or `post` chose, and `params` or `json` is the value
      the caller passed. */
  lemma ForwardMethod(s: Session, verb: string, endpoint: string, name: string, arg: Value, extra: Dict<string, Value>, now: int, auth: AuthServer)
    requires name in {"params", "json"}
    requires ForwardKwargs(extra, name) && DistinctKeys(extra)
    requires Forward(s, verb, endpoint, name, arg, extra, now, auth).1.Success?
    ensures var r := Forward(s, verb, endpoint, name, arg, extra, now, auth);
      Get(r.1.value, "method") == Some(Text(verb)) && Get(r.1.value, name) == Some(arg)
  {
    var kwargs := [(name, arg)] + extra;
    ForwardedKwargs(name, arg, extra);
    RequestArguments(s, verb, endpoint, kwargs, now, auth, "method");
    RequestArguments(s, verb, endpoint, kwargs, now, auth, name);
    assert HasKey(kwargs, name) && kwargs[0] == (name, arg);
  }

  /** An endpoint written with or without its leading slash reaches the
      same URL. */
  lemma LeadingSlashIrrelevant(endpoint: string)
    requires !(|endpoint| > 0 && endpoint[0] == '/')
    ensures ApiUrl + StripLeadingSlash("/" + endpoint) == ApiUrl + StripLeadingSlash(endpoint)
  {
    assert ("/" + endpoint)[1..] == endpoint;
  }

  /** A status request reaches the status endpoint under the API root. */
  lemma StatusUrl()
    ensures ApiUrl + StripLeadingSlash("/manga/status") == "https://api.mangadex.org/manga/status"
  {
    assert StripLeadingSlash("/manga/status") == "manga/status";
  }

  /** The authentication URL is built by plain concatenation and keeps a
      doubled slash. */
  lemma LoginUrlDoubledSlash()
    ensures LoginUrl == "https://api.mangadex.org//auth/login"
  {
  }

  /** Only one leading slash is ever stripped. */
  lemma StripsOneSlash()
    ensures StripLeadingSlash("//x") == "/x"
  {
    assert "//x"[1..] == "/x";
  }
}

/** The client object of md_api.py: the three attributes, updated in place
    by methods that follow the exchange functions of `MdApi`. */
module MdClient {
  import opened Wrappers
  import opened PyDict
  import opened MdApi

  class MangadexApi {
    var sessionToken: Option<string>
    var refreshToken: Option<string>
    var sessionExpiration: Option<int>

    function State(): Session
      reads this
    {
      Session(sessionToken, refreshToken, sessionExpiration)
    }

    /** md_api.py:7-10: the attributes are only declared. */
    constructor ()
      ensures State() == Unset
    {
      sessionToken, refreshToken, sessionExpiration := None, None, None;
    }

    method ParseLoginData(data: LoginData, now: int) returns (err: Option<ApiError>)
      modifies this
      ensures (State(), err) == ParseLogin(old(State()), data, now)
    {
      if data.token.None? {
        return Some(MissingKey("token"));
      }
      var tokens := data.token.value;
      if tokens.session.None? {
        return Some(MissingKey("session"));
      }
      sessionToken := tokens.session;
      if tokens.refresh.None? {
        return Some(MissingKey("refresh"));
      }
      refreshToken := tokens.refresh;
      sessionExpiration := Some(now + SessionValidity);
      err := None;
    }

    method Refresh(now: int, auth: AuthServer) returns (err: Option<ApiError>, calls: seq<AuthCall>)
      modifies this
      ensures (State(), err, calls) == MdApi.Refresh(old(State()), now, auth)
    {
      if refreshToken.None? {
        return Some(UnsetAttribute("refresh_token")), [];
      }
      var call := AuthCall(RefreshUrl, RefreshBody(refreshToken.value), Timeout);
      err := ParseLoginData(auth(call), now);
      calls := [call];
    }

    method LoadRefreshToken(token: string, now: int, auth: AuthServer) returns (err: Option<ApiError>, calls: seq<AuthCall>)
      modifies this
      ensures (State(), err, calls) == MdApi.LoadRefreshToken(old(State()), token, now, auth)
    {
      refreshToken := Some(token);
      err, calls := Refresh(now, auth);
    }

    method Login(user: string, password: string, now: int, auth: AuthServer) returns (r: Result<string, ApiError>, call: AuthCall)
      modifies this
      ensures (State(), r, call) == MdApi.Login(old(State()), user, password, now, auth)
    {
      call := AuthCall(LoginUrl, Credentials(user, password), Timeout);
      var err := ParseLoginData(auth(call), now);
      if err.Some? {
        return Failure(err.value), call;
      }
      r := Success(refreshToken.value);
    }

    method Request(verb: string, endpoint: string, kwargs: Dict<string, Value>, now: int, auth: AuthServer)
      returns (r: Result<Dict<string, Value>, ApiError>, calls: seq<AuthCall>)
      requires RequestKwargs(kwargs)
      modifies this
      ensures (State(), r, calls) == MdApi.Request(old(State()), verb, endpoint, kwargs, now, auth)
    {
      if sessionExpiration.None? {
        return Failure(UnsetAttribute("session_expiration")), [];
      }
      calls := [];
      if now > sessionExpiration.value {
        var err;
        err, calls := Refresh(now, auth);
        if err.Some? {
          return Failure(err.value), calls;
        }
      }
      if sessionToken.None? {
        return Failure(UnsetAttribute("session_token")), calls;
      }
      r := Success(Update(DefaultArgs(verb, endpoint, sessionToken.value), kwargs));
    }

    method Get(endpoint: string, params: Value, extra: Dict<string, Value>, now: int, auth: AuthServer)
      returns (r: Result<Dict<string, Value>, ApiError>, calls: seq<AuthCall>)
      requires ForwardKwargs(extra, "params")
      modifies this
      ensures (State(), r, calls) == MdApi.Forward(old(State()), "GET", endpoint, "params", params, extra, now, auth)
    {
      r, calls := Forward("GET", endpoint, "params", params, extra, now, auth);
    }

    method Post(endpoint: string, json: Value, extra: Dict<string, Value>, now: int, auth: AuthServer)
      returns (r: Result<Dict<string, Value>, ApiError>, calls: seq<AuthCall>)
      requires ForwardKwargs(extra, "json")
      modifies this
      ensures (State(), r, calls) == MdApi.Forward(old(State()), "POST", endpoint, "json", json, extra, now, auth)
    {
      r, calls := Forward("POST", endpoint, "json", json, extra, now, auth);
    }

    method Forward(verb: string, endpoint: string, name: string, arg: Value, extra: Dict<string, Value>, now: int, auth: AuthServer)
      returns (r: Result<Dict<string, Value>, ApiError>, calls: seq<AuthCall>)
      requires name in {"params", "json"}
      requires ForwardKwargs(extra, name)
      modifies this
      ensures (State(), r, calls) == MdApi.Forward(old(State()), verb, endpoint, name, arg, extra, now, auth)
    {
      if HasKey(extra, "method") {
        return Failure(DuplicateArgument("method")), [];
      }
      var kwargs := [(name, arg)] + extra;
      ForwardedKwargs(name, arg, extra);
      r, calls := Request(verb, endpoint, kwargs, now, auth);
    }
  }
}
