/**
 * The parts of the Google OAuth handler that are plain logic: how the display name
 * reported by Google is split into a first and a last name, which domain and secure
 * flag the state cookie gets, and the two guards at the top of the OAuth callback
 * (the CSRF state check, then the presence of an authorization code).
 */
module AuthHandler {
  import opened Wrappers
  import opened Strings
  import opened HostPort

  // ---------------------------------------------------------------------------
  // The name split

  /**
   * The first and last of a list of words: the first word, and the last one when
   * there are at least two; empty strings stand for the missing ones.
   */
  function FirstAndLast(parts: seq<string>): (r: (string, string))
    requires AllWords(parts)
    ensures r.0 == "" <==> parts == []
    ensures r.1 == "" <==> |parts| < 2
    ensures r.0 != "" ==> r.0 == parts[0]
    ensures r.1 != "" ==> r.1 == parts[|parts| - 1]
    ensures NoSpace(r.0) && NoSpace(r.1)
  {
    var first := if |parts| >= 1 then parts[0] else "";
    var last := if |parts| >= 2 then parts[|parts| - 1] else "";
    (first, last)
  }

  /**
   * The first and last name of a display name: the first whitespace-separated field,
   * and the last field when there are at least two. A one-word name has no last name,
   * and the fields between the first and the last are dropped.
   */
  function SplitName(name: string): (r: (string, string))
    ensures r.0 == "" <==> IsBlank(name)
    ensures r.1 != "" ==> r.0 != ""
    ensures NoSpace(r.0) && NoSpace(r.1)
  {
    FirstAndLast(Fields(name))
  }

  /**
   * A name of two or more words, laid out with any white space, keeps its first and
   * its last word and drops the rest.
   */
  lemma SplitNameOfWords(first: string, middle: seq<string>, last: string, gaps: seq<string>)
    requires IsWord(first) && AllWords(middle) && IsWord(last)
    requires Separators([first] + middle + [last], gaps)
    ensures SplitName(Spread([first] + middle + [last], gaps)) == (first, last)
  {
    var ws := [first] + middle + [last];
    assert AllWords(ws) by {
      forall i | 0 <= i < |ws| ensures IsWord(ws[i]) {
        if 0 < i < |ws| - 1 {
          assert ws[i] == middle[i - 1];
        }
      }
    }
    FieldsOfSpread(ws, gaps);
  }

  /** A one-word name is the first name; the last name stays empty rather than repeating it. */
  lemma SplitNameOfOneWord(w: string)
    requires IsWord(w)
    ensures SplitName(w) == (w, "")
  {
    FieldsOfWord(w);
  }

  /**
   * Only the words count: the same words laid out with any white space (leading,
   * trailing, or runs of any length between them) split alike.
   */
  lemma SplitNameIgnoresSpacing(ws: seq<string>, gaps: seq<string>, gaps': seq<string>)
    requires AllWords(ws) && Separators(ws, gaps) && Separators(ws, gaps')
    ensures SplitName(Spread(ws, gaps)) == SplitName(Spread(ws, gaps'))
  {
    FieldsOfSpread(ws, gaps);
    FieldsOfSpread(ws, gaps');
  }

  /**
   * Both parts are taken from the name itself: the first name opens it once the
   * leading white space is dropped, and the last name closes it once the trailing
   * white space is dropped.
   */
  lemma SplitNameWithinName(name: string)
    ensures SplitName(name).0 <= TrimLeft(name)
    ensures SplitName(name).1 != "" ==> EndsWith(TrimRight(name), SplitName(name).1)
  {
    if Fields(name) != [] {
      FirstFieldOpens(name);
      LastFieldCloses(name);
    }
  }

  // ---------------------------------------------------------------------------
  // Cookie parameters

  /** The parts of a parsed URL that the handler reads; `host` is `host[:port]`. */
  datatype Url = Url(scheme: string, host: string)

  /**
   * The domain and secure flag of the state cookie, from the parsed base URL of the
   * service (None when the base URL does not parse): the URL's host name and whether
   * its scheme is https; an unparsable base URL gives no domain and no secure flag.
   */
  function CookieParams(parsedBase: Option<Url>): (r: (string, bool))
    ensures r.1 <==> parsedBase.Some? && parsedBase.value.scheme == "https"
    ensures parsedBase.None? ==> r.0 == ""
    ensures parsedBase.Some? ==> r.0 == Hostname(parsedBase.value.host)
  {
    match parsedBase
    case None => ("", false)
    case Some(u) => (Hostname(u.host), u.scheme == "https")
  }

  /**
   * The cookie domain never carries the port of the base URL: for a base URL whose
   * host is `host:port`, the domain is `host`.
   */
  lemma CookieDomainDropsPort(scheme: string, host: string, port: string)
    requires AllDigits(port)
    requires ':' in host || !Bracketed(host)
    ensures CookieParams(Some(Url(scheme, JoinHostPort(host, port)))).0 == host
  {
    HostnameOfJoin(host, port);
  }

  /** Example: an http base URL never yields a secure cookie, whatever its host. */
  lemma PlainHttpNotSecure(host: string)
    ensures !CookieParams(Some(Url("http", host))).1
  {
    assert "http" != "https" by {
      assert |"http"| != |"https"|;
    }
  }

  /** A cookie as the handler sets it. */
  datatype Cookie = Cookie(name: string, value: string, maxAge: int, path: string,
                           domain: string, secure: bool, httpOnly: bool)

  const StateCookieName: string := "oauthState"

  /** The state cookie set by the login handler: five minutes, the whole site, HTTP only. */
  function StateCookie(state: string, parsedBase: Option<Url>): (c: Cookie)
    ensures c.name == StateCookieName && c.value == state && c.maxAge == 300
    ensures c.path == "/" && c.httpOnly
    ensures (c.domain, c.secure) == CookieParams(parsedBase)
  {
    var (domain, secure) := CookieParams(parsedBase);
    Cookie(StateCookieName, state, 300, "/", domain, secure, true)
  }

  /** The cookie the callback sets to clear the state cookie. */
  function ClearedStateCookie(parsedBase: Option<Url>): (c: Cookie)
    ensures c.name == StateCookieName && c.value == "" && c.maxAge < 0
  {
    var (domain, secure) := CookieParams(parsedBase);
    Cookie(StateCookieName, "", -1, "/", domain, secure, true)
  }

  /** Two cookies a browser files under the same name, path and domain. */
  predicate SameSlot(a: Cookie, b: Cookie) {
    a.name == b.name && a.path == b.path && a.domain == b.domain
    && a.secure == b.secure && a.httpOnly == b.httpOnly
  }

  /**
   * The clearing cookie replaces the state cookie the login handler set (same name,
   * path, domain and flags) and expires at once, so the state cannot be used twice.
   */
  lemma ClearingReplacesStateCookie(state: string, parsedBase: Option<Url>)
    ensures SameSlot(ClearedStateCookie(parsedBase), StateCookie(state, parsedBase))
    ensures ClearedStateCookie(parsedBase).maxAge < 0 < StateCookie(state, parsedBase).maxAge
  {
  }

  // ---------------------------------------------------------------------------
  // The callback guards

  const StatusBadRequest: int := 400
  const StatusUnauthorized: int := 401

  /** A response written with a status code and a plain-text body. */
  datatype Response = Response(status: int, body: string)

  /** A query parameter: its value, or the empty string when it is absent. */
  function QueryValue(query: map<string, string>, key: string): string {
    if key in query then query[key] else ""
  }

  /** The request carries the state cookie and the `state` parameter equals it. */
  predicate StateMatches(query: map<string, string>, cookies: map<string, string>) {
    StateCookieName in cookies && cookies[StateCookieName] == QueryValue(query, "state")
  }

  /** What the guards decide: reject the request, or go on to exchange `code` for a token. */
  datatype Decision = RejectState | RejectMissingCode | Exchange(code: string)

  /**
   * The callback's guards: a request whose state does not match the cookie (or has no
   * cookie) is refused first; one with a matching state but no authorization code is
   * refused next; only a request passing both reaches the token exchange, with its code.
   */
  function CallbackDecision(query: map<string, string>, cookies: map<string, string>): (d: Decision)
    ensures d.RejectState? <==> !StateMatches(query, cookies)
    ensures d.RejectMissingCode? <==> StateMatches(query, cookies) && QueryValue(query, "code") == ""
    ensures d.Exchange? ==> d.code == QueryValue(query, "code") && d.code != ""
  {
    if !StateMatches(query, cookies) then RejectState
    else if QueryValue(query, "code") == "" then RejectMissingCode
    else Exchange(QueryValue(query, "code"))
  }

  /** The response the guards write, if they refuse the request. */
  function Reply(d: Decision): (r: Option<Response>)
    ensures r.None? <==> d.Exchange?
    ensures d.RejectState? ==> r.value.status == StatusUnauthorized
    ensures d.RejectMissingCode? ==> r.value.status == StatusBadRequest
  {
    match d
    case RejectState => Some(Response(StatusUnauthorized, "invalid CSRF state token\n"))
    case RejectMissingCode => Some(Response(StatusBadRequest, "authorization code not provided"))
    case Exchange(_) => None
  }

  /**
   * The state is checked before the code: a request with a bad state is refused as
   * unauthorized whatever authorization code it carries, or none.
   */
  lemma StateCheckedFirst(query: map<string, string>, cookies: map<string, string>, code: string)
    requires !StateMatches(query, cookies)
    ensures CallbackDecision(query, cookies) == RejectState
    ensures CallbackDecision(query["code" := code], cookies) == RejectState
    ensures CallbackDecision(query - {"code"}, cookies) == RejectState
  {
    assert QueryValue(query["code" := code], "state") == QueryValue(query, "state");
    assert QueryValue(query - {"code"}, "state") == QueryValue(query, "state");
  }

  /**
   * Example: with no state cookie at all the request is refused with the 401 text,
   * even when `state` is empty too.
   */
  lemma MissingCookieRefused(query: map<string, string>, cookies: map<string, string>)
    requires StateCookieName !in cookies
    ensures Reply(CallbackDecision(query, cookies)) == Some(Response(StatusUnauthorized, "invalid CSRF state token\n"))
  {
  }

  /** The request side of the framework's context and the response written so far. */
  class Context {
    const query: map<string, string>
    const cookies: map<string, string>
    var response: Option<Response>
    var setCookies: seq<Cookie>

    constructor (query: map<string, string>, cookies: map<string, string>)
      ensures this.query == query && this.cookies == cookies
      ensures response == None && setCookies == []
    {
      this.query := query;
      this.cookies := cookies;
      response := None;
      setCookies := [];
    }

    /** Writes a plain-text response. */
    method String(status: int, body: string)
      modifies this
      ensures response == Some(Response(status, body)) && setCookies == old(setCookies)
    {
      response := Some(Response(status, body));
    }

    /** Adds a cookie to the response. */
    method SetCookie(c: Cookie)
      modifies this
      ensures setCookies == old(setCookies) + [c] && response == old(response)
    {
      setCookies := setCookies + [c];
    }
  }

  /**
   * The guards at the top of the OAuth callback, run against `ctx`. A refused request
   * gets the response of CallbackDecision and no code; one that passes the state check
   * has its state cookie cleared, and the code is returned for the token exchange
   * only when the request also carries one.
   */
  method CallbackGuards(ctx: Context, parsedBase: Option<Url>) returns (code: Option<string>)
    modifies ctx
    ensures var d := CallbackDecision(ctx.query, ctx.cookies);
      && code == (if d.Exchange? then Some(d.code) else None)
      && ctx.response == (if d.Exchange? then old(ctx.response) else Reply(d))
      && ctx.setCookies == old(ctx.setCookies) + (if d.RejectState? then [] else [ClearedStateCookie(parsedBase)])
  {
    var state := QueryValue(ctx.query, "state");
    if StateCookieName !in ctx.cookies || state != ctx.cookies[StateCookieName] {
      ctx.String(StatusUnauthorized, "invalid CSRF state token\n");
      return None;
    }
    var (domain, secure) := CookieParams(parsedBase);
    ctx.SetCookie(Cookie(StateCookieName, "", -1, "/", domain, secure, true));

    var c := QueryValue(ctx.query, "code");
    if c == "" {
      ctx.String(StatusBadRequest, "authorization code not provided");
      return None;
    }
    return Some(c);
  }
}
