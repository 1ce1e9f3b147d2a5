/** The pure parts of the pusher's Webex OAuth controller: the form
    serialiser, the callback's query parsing and error selection, and the
    shape of the responses its handlers write. `encodeURIComponent` is a
    parameter; HTTP I/O is replaced by the awaited result it delivers and by
    the list of responses a handler writes. */
module Webex {
  import opened Wrappers
  import opened Decimal
  import opened Text

  const DefaultRedirectUri: string := "/pusher/webex/callback"
  const DefaultTokenRedirectUri: string := "/"
  const Scope: string := "spark:all spark:kms meeting:schedules_read meeting:schedules_write"
  const State: string := "workadventure-webex"
  const Api: string := "https://webexapis.com/v1"
  const RefreshCookie: string := "webex_refresh_token"
  /** `error()`'s default status. */
  const DefaultErrorStatus: nat := 500

  /** The process environment variables the controller reads (None: unset). */
  datatype Env = Env(clientId: Option<string>, clientSecret: Option<string>,
                     redirectUrl: Option<string>, tokenRedirectUrl: Option<string>)

  datatype WebexConfig = WebexConfig(clientId: string, clientSecret: string,
                                     redirectUri: string, tokenRedirectUri: string)

  /** The module-level constants, with `??`: only an unset variable takes the
      default, and a variable set to the empty string is kept. */
  function Configure(env: Env): (cfg: WebexConfig)
    ensures env.clientId.Some? ==> cfg.clientId == env.clientId.value
    ensures env.clientId.None? ==> cfg.clientId == ""
    ensures env.clientSecret.Some? ==> cfg.clientSecret == env.clientSecret.value
    ensures env.clientSecret.None? ==> cfg.clientSecret == ""
    ensures env.redirectUrl.Some? ==> cfg.redirectUri == env.redirectUrl.value
    ensures env.redirectUrl.None? ==> cfg.redirectUri == DefaultRedirectUri
    ensures env.tokenRedirectUrl.Some? ==> cfg.tokenRedirectUri == env.tokenRedirectUrl.value
    ensures env.tokenRedirectUrl.None? ==> cfg.tokenRedirectUri == DefaultTokenRedirectUri
  {
    WebexConfig(env.clientId.GetOr(""), env.clientSecret.GetOr(""),
                env.redirectUrl.GetOr(DefaultRedirectUri), env.tokenRedirectUrl.GetOr(DefaultTokenRedirectUri))
  }

  /** What the model needs of `encodeURIComponent`: it escapes both query
      delimiters and distinct strings stay distinct. */
  ghost predicate UriComponentEncoder(enc: string -> string) {
    && (forall s :: '&' !in enc(s) && '=' !in enc(s))
    && (forall a, b :: enc(a) == enc(b) ==> a == b)
  }

  /** No query delimiter in a key or a value. */
  predicate Plain(s: string) {
    '&' !in s && '=' !in s
  }

  // ---------------------------------------------------------------------
  // Forms and query strings

  /** `key=value` pieces joined by `&`, in order. */
  function FormatQuery(pairs: seq<(string, string)>): (q: string)
    ensures pairs == [] <==> q == ""
  {
    Join(seq(|pairs|, i requires 0 <= i < |pairs| => pairs[i].0 + "=" + pairs[i].1), '&')
  }

  /** `urlEncode(obj)`, with the object's entries in `Object.keys` order. */
  function UrlEncode(pairs: seq<(string, string)>, enc: string -> string): (q: string)
    ensures pairs == [] <==> q == ""
  {
    FormatQuery(seq(|pairs|, i requires 0 <= i < |pairs| => (enc(pairs[i].0), enc(pairs[i].1))))
  }

  /** One entry of the callback's `Map`: `value` is None where JavaScript has `undefined`. */
  datatype Field = Field(key: string, value: Option<string>)

  /** `keyValue.split("=")` read as a `[key, value]` entry: what follows a
      second `=` is dropped, a piece without `=` has no value. */
  function ParseField(kv: string): Field {
    var parts := Split(kv, '=');
    Field(parts[0], if |parts| >= 2 then Some(parts[1]) else None)
  }

  /** `new Map(entries)`: a later entry for a key overwrites an earlier one. */
  function BuildMap(fields: seq<Field>): (m: map<string, Option<string>>)
    ensures forall k :: k in m <==> exists i :: 0 <= i < |fields| && fields[i].key == k
    decreases |fields|
  {
    if fields == [] then map[]
    else
      var init := fields[..|fields| - 1];
      var last := fields[|fields| - 1];
      var m := BuildMap(init);
      assert forall i :: 0 <= i < |init| ==> init[i] == fields[i];
      m[last.key := last.value]
  }

  /** The callback's query map. */
  function ParseQuery(q: string): map<string, Option<string>> {
    var kvs := Split(q, '&');
    BuildMap(seq(|kvs|, i requires 0 <= i < |kvs| => ParseField(kvs[i])))
  }

  /** `query.get(key)`. */
  function Get(m: map<string, Option<string>>, key: string): Option<string> {
    if key in m then m[key] else None
  }

  /** JavaScript truthiness of a string that may be `undefined`. */
  predicate Truthy(s: Option<string>) {
    s.Some? && s.value != ""
  }

  /** A key's entry is its last field. */
  lemma {:induction false} LastWins(fields: seq<Field>, i: nat)
    requires i < |fields|
    requires forall j :: i < j < |fields| ==> fields[j].key != fields[i].key
    ensures fields[i].key in BuildMap(fields) && BuildMap(fields)[fields[i].key] == fields[i].value
    decreases |fields|
  {
    var init := fields[..|fields| - 1];
    if i < |fields| - 1 {
      assert init[i] == fields[i];
      LastWins(init, i);
    }
  }

  /** `k=v` with plain `k` and `v` parses to the entry `k -> v`. */
  lemma ParseFieldPair(k: string, v: string)
    requires Plain(k) && Plain(v)
    ensures ParseField(k + "=" + v) == Field(k, Some(v))
  {
    SplitFirst(k, '=', v);
    SplitPlain(v, '=');
  }

  /** Only the first two `=`-separated parts count. */
  lemma ParseFieldIgnoresRest(k: string, v: string, rest: string)
    requires Plain(k) && Plain(v)
    ensures ParseField(k + "=" + v + "=" + rest) == Field(k, Some(v))
  {
    SplitFirst(k, '=', v + "=" + rest);
    SplitFirst(v, '=', rest);
    assert k + "=" + v + "=" + rest == k + ['='] + (v + "=" + rest);
  }

  /** The fields a list of plain pairs stands for. */
  function AsFields(pairs: seq<(string, string)>): (fs: seq<Field>)
    ensures |fs| == |pairs|
  {
    seq(|pairs|, i requires 0 <= i < |pairs| => Field(pairs[i].0, Some(pairs[i].1)))
  }

  /** Parsing a formatted query gives back its pairs, later keys winning. */
  lemma FormatQueryRoundTrip(pairs: seq<(string, string)>)
    requires |pairs| >= 1
    requires forall i :: 0 <= i < |pairs| ==> Plain(pairs[i].0) && Plain(pairs[i].1)
    ensures ParseQuery(FormatQuery(pairs)) == BuildMap(AsFields(pairs))
  {
    var pieces := seq(|pairs|, i requires 0 <= i < |pairs| => pairs[i].0 + "=" + pairs[i].1);
    forall i | 0 <= i < |pieces| ensures '&' !in pieces[i] {
      assert pieces[i] == pairs[i].0 + "=" + pairs[i].1;
    }
    SplitJoin(pieces, '&');
    var kvs := Split(FormatQuery(pairs), '&');
    assert kvs == pieces;
    var fs := seq(|kvs|, i requires 0 <= i < |kvs| => ParseField(kvs[i]));
    forall i | 0 <= i < |pairs| ensures fs[i] == AsFields(pairs)[i] {
      ParseFieldPair(pairs[i].0, pairs[i].1);
    }
    assert fs == AsFields(pairs);
  }

  /** Parsing what `urlEncode` produced gives back the encoded pairs. */
  lemma UrlEncodeRoundTrip(pairs: seq<(string, string)>, enc: string -> string)
    requires |pairs| >= 1
    requires UriComponentEncoder(enc)
    ensures ParseQuery(UrlEncode(pairs, enc))
      == BuildMap(AsFields(seq(|pairs|, i requires 0 <= i < |pairs| => (enc(pairs[i].0), enc(pairs[i].1)))))
  {
    var encoded := seq(|pairs|, i requires 0 <= i < |pairs| => (enc(pairs[i].0), enc(pairs[i].1)));
    forall i | 0 <= i < |encoded| ensures Plain(encoded[i].0) && Plain(encoded[i].1) {
      assert '&' !in enc(pairs[i].0) && '=' !in enc(pairs[i].0);
      assert '&' !in enc(pairs[i].1) && '=' !in enc(pairs[i].1);
    }
    FormatQueryRoundTrip(encoded);
  }

  // ---------------------------------------------------------------------
  // Authorization URL

  /** The parameters of `authorizeUrl`; only `redirect_uri` and `scope` are encoded. */
  function AuthorizeParams(cfg: WebexConfig, enc: string -> string): seq<(string, string)> {
    [("client_id", cfg.clientId), ("response_type", "code"), ("redirect_uri", enc(cfg.redirectUri)),
     ("scope", enc(Scope)), ("state", State)]
  }

  function AuthorizeUrl(cfg: WebexConfig, enc: string -> string): string {
    Api + "/authorize?" + FormatQuery(AuthorizeParams(cfg, enc))
  }

  /** The provider echoes the authorization URL's `state`; parsed as the
      callback parses queries, it passes the callback's state check. */
  lemma AuthorizeStatePassesCallback(cfg: WebexConfig, enc: string -> string)
    requires Plain(cfg.clientId)
    requires UriComponentEncoder(enc)
    ensures Get(ParseQuery(FormatQuery(AuthorizeParams(cfg, enc))), "state") == Some(State)
  {
    var ps := AuthorizeParams(cfg, enc);
    assert Plain(enc(cfg.redirectUri)) && Plain(enc(Scope));
    assert Plain("client_id") && Plain("response_type") && Plain("code");
    assert Plain("redirect_uri") && Plain("scope") && Plain("state") && Plain(State);
    FormatQueryRoundTrip(ps);
    LastWins(AsFields(ps), 4);
  }

  // ---------------------------------------------------------------------
  // Responses

  datatype Cookie = Cookie(name: string, value: string, httpOnly: bool, sameSite: string, maxAge: nat)
  datatype Header = SetCookie(cookie: Cookie) | Location(url: string)
  datatype Response = Response(status: nat, headers: seq<Header>, body: string)

  /** `error(res, error, status)`: the status and the message as body. */
  function Error(error: string, status: nat): (r: Response)
    ensures r.headers == [] && r.status == status && r.body == error
  {
    Response(status, [], error)
  }

  /** `redirect(res, location, ...cookies)`: 302, one `Set-Cookie` per cookie
      in order, then `Location`, and an empty body. */
  function Redirect(location: string, cookies: seq<Cookie>): (r: Response)
    ensures r.status == 302 && r.body == ""
    ensures |r.headers| == |cookies| + 1 && r.headers[|cookies|] == Location(location)
    ensures forall i :: 0 <= i < |cookies| ==> r.headers[i] == SetCookie(cookies[i])
  {
    Response(302, seq(|cookies|, i requires 0 <= i < |cookies| => SetCookie(cookies[i])) + [Location(location)], "")
  }

  /** The body of a successful `access_token` call. */
  datatype TokenResult = TokenResult(accessToken: string, expiresIn: nat,
                                     refreshToken: string, refreshTokenExpiresIn: nat)

  /** The query `redirectToToken` appends (`expiresIn` is a number, rendered in decimal). */
  function TokenArgs(t: TokenResult): seq<(string, string)> {
    [("accessToken", t.accessToken), ("expiresIn", NatToDecimal(t.expiresIn))]
  }

  /** `handleTokenResult`. */
  function HandleTokenResult(cfg: WebexConfig, t: TokenResult, enc: string -> string): Response {
    Redirect(cfg.tokenRedirectUri + "?" + UrlEncode(TokenArgs(t), enc),
             [Cookie(RefreshCookie, t.refreshToken, true, "lax", t.refreshTokenExpiresIn)])
  }

  /** A token result is a 302 that stores the refresh token in one http-only,
      same-site-lax cookie living as long as the token, and hands the access
      token and its lifetime to the token page, where the query reads back. */
  lemma TokenResultRedirect(cfg: WebexConfig, t: TokenResult, enc: string -> string)
    requires UriComponentEncoder(enc)
    ensures var r := HandleTokenResult(cfg, t, enc);
      && r.status == 302
      && r.headers == [SetCookie(Cookie(RefreshCookie, t.refreshToken, true, "lax", t.refreshTokenExpiresIn)),
                       Location(cfg.tokenRedirectUri + "?" + UrlEncode(TokenArgs(t), enc))]
    ensures var m := ParseQuery(UrlEncode(TokenArgs(t), enc));
      && Get(m, enc("accessToken")) == Some(enc(t.accessToken))
      && Get(m, enc("expiresIn")) == Some(enc(NatToDecimal(t.expiresIn)))
  {
    var r := HandleTokenResult(cfg, t, enc);
    assert r.headers == [r.headers[0], r.headers[1]];
    var args := TokenArgs(t);
    UrlEncodeRoundTrip(args, enc);
    var fs := AsFields(seq(|args|, i requires 0 <= i < |args| => (enc(args[i].0), enc(args[i].1))));
    assert enc("accessToken") != enc("expiresIn") by {
      assert "accessToken" != "expiresIn";
    }
    LastWins(fs, 0);
    LastWins(fs, 1);
  }

  /** JavaScript's rendering of a string that may be `undefined` in a form value. */
  function JsString(s: Option<string>): string {
    if s.Some? then s.value else "undefined"
  }

  /** The form `fetchAccessToken` posts. */
  function AccessTokenForm(cfg: WebexConfig, code: Option<string>, enc: string -> string): string {
    UrlEncode([("grant_type", "authorization_code"), ("client_id", cfg.clientId), ("client_secret", cfg.clientSecret),
               ("code", JsString(code)), ("redirect_uri", cfg.redirectUri)], enc)
  }

  /** The form `refreshAccessToken` posts. */
  function RefreshTokenForm(cfg: WebexConfig, token: Option<string>, enc: string -> string): string {
    UrlEncode([("grant_type", "refresh_token"), ("client_id", cfg.clientId), ("client_secret", cfg.clientSecret),
               ("refresh_token", JsString(token))], enc)
  }

  /** The token endpoint posts carry the code or refresh token they were given. */
  lemma TokenFormsCarryTheirToken(cfg: WebexConfig, code: string, token: string, enc: string -> string)
    requires UriComponentEncoder(enc)
    ensures Get(ParseQuery(AccessTokenForm(cfg, Some(code), enc)), enc("code")) == Some(enc(code))
    ensures Get(ParseQuery(RefreshTokenForm(cfg, Some(token), enc)), enc("refresh_token")) == Some(enc(token))
  {
    var a := [("grant_type", "authorization_code"), ("client_id", cfg.clientId), ("client_secret", cfg.clientSecret),
              ("code", code), ("redirect_uri", cfg.redirectUri)];
    UrlEncodeRoundTrip(a, enc);
    var fa := AsFields(seq(|a|, i requires 0 <= i < |a| => (enc(a[i].0), enc(a[i].1))));
    assert enc("code") != enc("redirect_uri") by { assert "code" != "redirect_uri"; }
    LastWins(fa, 3);
    var b := [("grant_type", "refresh_token"), ("client_id", cfg.clientId), ("client_secret", cfg.clientSecret),
              ("refresh_token", token)];
    UrlEncodeRoundTrip(b, enc);
    var fb := AsFields(seq(|b|, i requires 0 <= i < |b| => (enc(b[i].0), enc(b[i].1))));
    LastWins(fb, 3);
  }

  // ---------------------------------------------------------------------
  // Handlers

  /** An awaited token request: its result, or the message of what it threw. */
  datatype Outcome = Succeeded(result: TokenResult) | Threw(message: string)

  /** What a handler does: the forms it posts to the token endpoint and the
      responses it writes, in order. */
  datatype Handling = Handling(posts: seq<string>, responses: seq<Response>)

  /** The local `error` the callback computes before any exchange. */
  function SelectError(query: map<string, Option<string>>): (e: Option<string>)
    ensures "error" in query ==> e == query["error"]
    ensures "error" !in query && Get(query, "state") != Some(State) ==> e == Some("Invalid state")
    ensures "error" !in query && Get(query, "state") == Some(State) ==>
      (e == None <==> "code" in query) && (e != None ==> e == Some("No authorization code returned"))
  {
    if "error" in query then query["error"]
    else if Get(query, "state") != Some(State) then Some("Invalid state")
    else if "code" !in query then Some("No authorization code returned")
    else None
  }

  datatype CallbackDecision = Reject(message: string) | Exchange(code: Option<string>)

  /** The callback's decision as written: a truthy `error` rejects with 501,
      anything else goes on to the exchange. */
  function DecideCallback(query: map<string, Option<string>>): (d: CallbackDecision)
    ensures d.Reject? <==> Truthy(SelectError(query))
    ensures d.Exchange? ==> d.code == Get(query, "code")
  {
    var e := SelectError(query);
    if Truthy(e) then Reject(e.value) else Exchange(Get(query, "code"))
  }

  /** When an exchange goes ahead, either the query has a valid state and a
      code, or it has an `error` key whose value is empty or absent. */
  lemma ExchangeConditions(query: map<string, Option<string>>)
    ensures DecideCallback(query).Exchange? <==>
      (("error" in query && !Truthy(query["error"]))
       || ("error" !in query && Get(query, "state") == Some(State) && "code" in query))
  {
  }

  /** The callback's decision with the state and code checks kept whenever
      the error is falsy. */
  function DecideCallbackChecked(query: map<string, Option<string>>): (d: CallbackDecision)
    ensures d.Exchange? ==> Get(query, "state") == Some(State) && "code" in query
    ensures d.Exchange? ==> !Truthy(Get(query, "error")) && d.code == Get(query, "code")
    ensures d.Reject? ==> d.message != ""
  {
    var e := Get(query, "error");
    if Truthy(e) then Reject(e.value)
    else if Get(query, "state") != Some(State) then Reject("Invalid state")
    else if "code" !in query then Reject("No authorization code returned")
    else Exchange(Get(query, "code"))
  }

  /** The corrected decision differs from the written one only on queries
      carrying an `error` key with an empty or absent value. */
  lemma CheckedAgreesWithoutEmptyError(query: map<string, Option<string>>)
    requires !("error" in query && !Truthy(query["error"]))
    ensures DecideCallbackChecked(query) == DecideCallback(query)
  {
  }

  /** The query a provider never sends but anyone can write, `error=&code=<c>`:
      an empty `error`, a code, no state. As written, it reaches the token
      exchange with that code; the checked decision rejects it. */
  lemma EmptyErrorSkipsStateCheck(c: string)
    requires Plain(c)
    ensures var query := ParseQuery(FormatQuery([("error", ""), ("code", c)]));
      && Get(query, "state") == None
      && DecideCallback(query) == Exchange(Some(c))
      && DecideCallbackChecked(query) == Reject("Invalid state")
  {
    var ps := [("error", ""), ("code", c)];
    assert Plain("error") && Plain("") && Plain("code");
    FormatQueryRoundTrip(ps);
    var fs := AsFields(ps);
    assert fs == [Field("error", Some("")), Field("code", Some(c))];
    assert fs[..1] == [Field("error", Some(""))];
    assert fs[..1][..0] == [];
    assert BuildMap(fs[..1]) == map["error" := Some("")];
    assert BuildMap(fs) == map["error" := Some(""), "code" := Some(c)];
  }

  /** What a handler writes once its token request has settled: the token
      result's redirect, or `failStatus` with the thrown message, or nothing
      when the client went away (the callback fails with 503, refresh with 502). */
  function AfterExchange(cfg: WebexConfig, enc: string -> string, outcome: Outcome, aborted: bool,
                         failStatus: nat): (rs: seq<Response>)
    ensures aborted ==> rs == []
    ensures !aborted && outcome.Succeeded? ==> rs == [HandleTokenResult(cfg, outcome.result, enc)]
    ensures !aborted && outcome.Threw? ==> rs == [Error(outcome.message, failStatus)]
  {
    if aborted then []
    else if outcome.Succeeded? then [HandleTokenResult(cfg, outcome.result, enc)]
    else [Error(outcome.message, failStatus)]
  }

  /** `callback(res, req)` as written, given its query string, the outcome of
      the token request, and whether the client went away meanwhile. */
  function Callback(cfg: WebexConfig, enc: string -> string, queryString: string,
                    outcome: Outcome, aborted: bool): (h: Handling)
    ensures var query := ParseQuery(queryString);
      h.posts != [] <==>
        (("error" in query && !Truthy(query["error"]))
         || ("error" !in query && Get(query, "state") == Some(State) && "code" in query))
    ensures var query := ParseQuery(queryString);
      h.posts == [] ==>
        (Truthy(SelectError(query)) && h.responses == [Error(SelectError(query).value, 501)])
    ensures var query := ParseQuery(queryString);
      h.posts != [] ==>
        (h.posts == [AccessTokenForm(cfg, Get(query, "code"), enc)] && h.responses == AfterExchange(cfg, enc, outcome, aborted, 503))
  {
    ExchangeConditions(ParseQuery(queryString));
    match DecideCallback(ParseQuery(queryString))
    case Reject(message) => Handling([], [Error(message, 501)])
    case Exchange(code) => Handling([AccessTokenForm(cfg, code, enc)], AfterExchange(cfg, enc, outcome, aborted, 503))
  }

  /** As written, `error=&code=<c>` without a state posts the code and answers
      with the token result. */
  lemma CallbackExchangesOnEmptyError(cfg: WebexConfig, enc: string -> string, c: string, outcome: Outcome, aborted: bool)
    requires Plain(c)
    ensures Callback(cfg, enc, FormatQuery([("error", ""), ("code", c)]), outcome, aborted)
      == Handling([AccessTokenForm(cfg, Some(c), enc)], AfterExchange(cfg, enc, outcome, aborted, 503))
  {
    EmptyErrorSkipsStateCheck(c);
  }

  /** The callback with the checked decision: a code is posted only with a
      valid state and a code present. */
  function CallbackChecked(cfg: WebexConfig, enc: string -> string, queryString: string,
                           outcome: Outcome, aborted: bool): (h: Handling)
    ensures |h.posts| <= 1 && |h.responses| <= 1
    ensures h.posts == [] ==> |h.responses| == 1 && h.responses[0].status == 501
    ensures h.posts != [] ==>
      var query := ParseQuery(queryString);
      && Get(query, "state") == Some(State) && "code" in query
      && h.posts == [AccessTokenForm(cfg, Get(query, "code"), enc)]
      && h.responses == AfterExchange(cfg, enc, outcome, aborted, 503)
  {
    match DecideCallbackChecked(ParseQuery(queryString))
    case Reject(message) => Handling([], [Error(message, 501)])
    case Exchange(code) => Handling([AccessTokenForm(cfg, code, enc)], AfterExchange(cfg, enc, outcome, aborted, 503))
  }

  /** The checked callback behaves as the written one on every query without
      an `error` key whose value is empty or absent. */
  lemma CallbackCheckedAgrees(cfg: WebexConfig, enc: string -> string, queryString: string,
                              outcome: Outcome, aborted: bool)
    requires var query := ParseQuery(queryString); !("error" in query && !Truthy(query["error"]))
    ensures CallbackChecked(cfg, enc, queryString, outcome, aborted) == Callback(cfg, enc, queryString, outcome, aborted)
  {
    CheckedAgreesWithoutEmptyError(ParseQuery(queryString));
  }

  /** `refresh(res, req)` as written: `jarToken` is the cookie jar's
      `webex_refresh_token`. Without it the error is written and the
      handler carries on to the token request anyway. */
  function Refresh(cfg: WebexConfig, enc: string -> string, jarToken: Option<string>,
                   outcome: Outcome, aborted: bool): (h: Handling)
    ensures h.posts == [RefreshTokenForm(cfg, jarToken, enc)]
    ensures |h.responses| == (if Truthy(jarToken) then 0 else 1) + (if aborted then 0 else 1)
    ensures !Truthy(jarToken) ==> h.responses[0] == Error("No refresh token found", DefaultErrorStatus)
    ensures h.responses[|h.responses| - (if aborted then 0 else 1)..] == AfterExchange(cfg, enc, outcome, aborted, 502)
  {
    var missing := if Truthy(jarToken) then [] else [Error("No refresh token found", DefaultErrorStatus)];
    var result := AfterExchange(cfg, enc, outcome, aborted, 502);
    Handling([RefreshTokenForm(cfg, jarToken, enc)], missing + result)
  }

  /** Without a refresh token, the written handler answers twice. */
  lemma RefreshWithoutTokenAnswersTwice(cfg: WebexConfig, enc: string -> string, outcome: Outcome)
    ensures var h := Refresh(cfg, enc, None, outcome, false);
      |h.responses| == 2 && h.responses[0] == Error("No refresh token found", 500)
      && h.posts == [RefreshTokenForm(cfg, None, enc)]
  {
  }

  /** `refresh` returning right after reporting the missing token. */
  function RefreshGuarded(cfg: WebexConfig, enc: string -> string, jarToken: Option<string>,
                          outcome: Outcome, aborted: bool): (h: Handling)
    ensures !Truthy(jarToken) ==> h == Handling([], [Error("No refresh token found", DefaultErrorStatus)])
    ensures Truthy(jarToken) ==> h.posts == [RefreshTokenForm(cfg, jarToken, enc)]
    ensures Truthy(jarToken) && !aborted && outcome.Succeeded? ==> h.responses == [HandleTokenResult(cfg, outcome.result, enc)]
    ensures Truthy(jarToken) && !aborted && outcome.Threw? ==> h.responses == [Error(outcome.message, 502)]
    ensures Truthy(jarToken) && aborted ==> h.responses == []
    ensures |h.responses| <= 1
  {
    if !Truthy(jarToken) then Handling([], [Error("No refresh token found", DefaultErrorStatus)])
    else Refresh(cfg, enc, jarToken, outcome, aborted)
  }

  /** With a token the two agree; without one, the guarded handler writes
      exactly one response and posts nothing. */
  lemma RefreshGuardedAgrees(cfg: WebexConfig, enc: string -> string, jarToken: Option<string>,
                             outcome: Outcome, aborted: bool)
    ensures Truthy(jarToken) ==> RefreshGuarded(cfg, enc, jarToken, outcome, aborted) == Refresh(cfg, enc, jarToken, outcome, aborted)
    ensures !Truthy(jarToken) ==> |RefreshGuarded(cfg, enc, jarToken, outcome, aborted).responses| == 1
  {
  }

  /** `authorize(res, req)`: with a refresh token in the cookie jar, the
      refresh path; otherwise a redirect to the authorization URL. */
  function Authorize(cfg: WebexConfig, enc: string -> string, jarToken: Option<string>,
                     outcome: Outcome, aborted: bool): (h: Handling)
    ensures h.posts != [] <==> Truthy(jarToken)
    ensures !Truthy(jarToken) ==> h.responses == [Redirect(AuthorizeUrl(cfg, enc), [])]
    ensures Truthy(jarToken) ==> h.posts == [RefreshTokenForm(cfg, jarToken, enc)]
    ensures |h.responses| <= 1
  {
    if Truthy(jarToken) then RefreshGuarded(cfg, enc, jarToken, outcome, aborted)
    else Handling([], [Redirect(AuthorizeUrl(cfg, enc), [])])
  }

  /** From `authorize`, which calls it only with a token, the written
      `refresh` never answers twice. */
  lemma AuthorizeMatchesWrittenRefresh(cfg: WebexConfig, enc: string -> string, jarToken: Option<string>,
                                       outcome: Outcome, aborted: bool)
    requires Truthy(jarToken)
    ensures Authorize(cfg, enc, jarToken, outcome, aborted) == Refresh(cfg, enc, jarToken, outcome, aborted)
  {
  }
}
