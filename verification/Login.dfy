/** The `login` command (src/commands/login.js): it opens the GitHub login
    page with the local callback address as a percent-encoded parameter,
    waits for the callback handshake, and stores the token only once the
    handshake has resolved. */
module Login {
  import opened Wrappers
  import opened JsValue
  import opened CallbackServer

  /** `API_BASE` of this file when the environment does not set it. */
  const DefaultApiBase := "https://commitai-backend.onrender.com"

  const CallbackUrl := "http://localhost:9900/callback"

  function ApiBase(env: Option<string>): string
  {
    EnvOr(env, DefaultApiBase)
  }

  predicate IsAscii(s: string)
  {
    forall i :: 0 <= i < |s| ==> s[i] as int < 128
  }

  /** The characters `encodeURIComponent` leaves alone. */
  predicate Unreserved(c: char)
  {
    ('A' <= c <= 'Z') || ('a' <= c <= 'z') || ('0' <= c <= '9') ||
    c == '-' || c == '_' || c == '.' || c == '!' || c == '~' || c == '*' ||
    c == '\'' || c == '(' || c == ')'
  }

  function HexDigit(d: int): (c: char)
    requires 0 <= d < 16
  {
    if d < 10 then ('0' as int + d) as char else ('A' as int + d - 10) as char
  }

  function HexValue(c: char): Option<int>
  {
    if '0' <= c <= '9' then Some(c as int - '0' as int)
    else if 'A' <= c <= 'F' then Some(c as int - 'A' as int + 10)
    else if 'a' <= c <= 'f' then Some(c as int - 'a' as int + 10)
    else None
  }

  /** `%XX` for one byte, upper-case hex. */
  function PercentByte(b: int): string
    requires 0 <= b < 256
  {
    ['%', HexDigit(b / 16), HexDigit(b % 16)]
  }

  /** The UTF-8 encoding of one character, percent-escaped byte by byte. A
      Dafny `char` is a Unicode scalar value, so the lone surrogates that
      make `encodeURIComponent` throw cannot occur. */
  function EscapeUtf8(c: char): string
  {
    var cp := c as int;
    if cp < 0x80 then PercentByte(cp)
    else if cp < 0x800 then PercentByte(0xC0 + cp / 64) + PercentByte(0x80 + cp % 64)
    else if cp < 0x10000 then
      PercentByte(0xE0 + cp / 4096) + PercentByte(0x80 + (cp / 64) % 64) + PercentByte(0x80 + cp % 64)
    else
      PercentByte(0xF0 + cp / 262144) + PercentByte(0x80 + (cp / 4096) % 64)
      + PercentByte(0x80 + (cp / 64) % 64) + PercentByte(0x80 + cp % 64)
  }

  /** `encodeURIComponent`: an unreserved character stays, every other one
      becomes the `%XX` escapes of its UTF-8 bytes. */
  function EncodeUriComponent(s: string): string
    decreases |s|
  {
    if s == [] then ""
    else (if Unreserved(s[0]) then [s[0]] else EscapeUtf8(s[0])) + EncodeUriComponent(s[1..])
  }

  /** The encoded text holds only unreserved characters, '%' and hex
      digits, so it cannot end or split a query parameter. */
  lemma {:induction false} EncodedIsQuerySafe(s: string)
    ensures forall i :: 0 <= i < |EncodeUriComponent(s)| ==>
      var c := EncodeUriComponent(s)[i];
      Unreserved(c) || c == '%'
    decreases |s|
  {
    if s != [] {
      EncodedIsQuerySafe(s[1..]);
    }
  }

  /** `decodeURIComponent` on escapes of ASCII characters; a malformed
      escape is a URIError (None). Escapes of bytes from 0x80 on are outside
      this model and also give None. */
  function DecodeUriComponent(s: string): Option<string>
    decreases |s|
  {
    if s == [] then Some("")
    else if s[0] != '%' then
      match DecodeUriComponent(s[1..])
      case Some(rest) => Some([s[0]] + rest)
      case None => None
    else if |s| < 3 || HexValue(s[1]).None? || HexValue(s[2]).None? then None
    else
      var code := 16 * HexValue(s[1]).value + HexValue(s[2]).value;
      if code >= 128 then None
      else
        match DecodeUriComponent(s[3..])
        case Some(rest) => Some([code as char] + rest)
        case None => None
  }

  lemma HexRoundTrip(d: int)
    requires 0 <= d < 16
    ensures HexValue(HexDigit(d)) == Some(d)
  {
  }

  /** Decoding undoes encoding. */
  lemma {:induction false} EncodeDecodeRoundTrip(s: string)
    requires IsAscii(s)
    ensures DecodeUriComponent(EncodeUriComponent(s)) == Some(s)
    decreases |s|
  {
    if s != [] {
      var rest := EncodeUriComponent(s[1..]);
      EncodeDecodeRoundTrip(s[1..]);
      var e := EncodeUriComponent(s);
      var c := s[0];
      if Unreserved(c) {
        assert e == [c] + rest;
        assert e[1..] == rest;
      } else {
        var hi, lo := c as int / 16, c as int % 16;
        HexRoundTrip(hi);
        HexRoundTrip(lo);
        assert e == PercentByte(c as int) + rest;
        assert e == ['%', HexDigit(hi), HexDigit(lo)] + rest;
        assert e[1] == HexDigit(hi) && e[2] == HexDigit(lo);
        assert e[3..] == rest;
        assert 16 * hi + lo == c as int;
      }
      assert [c] + s[1..] == s;
    }
  }

  /** The encoded callback address. */
  const EncodedCallbackUrl := "http%3A%2F%2Flocalhost%3A9900%2Fcallback"

  /** `${API_BASE}/api/auth/github?callback=${encodeURIComponent(callbackURL)}`,
      with the encoded callback written out (see `LoginUrlEncodesCallback`). */
  function LoginUrl(apiBase: string): string
  {
    apiBase + "/api/auth/github?callback=" + EncodedCallbackUrl
  }

  lemma {:induction false} EncodeUnreserved(s: string)
    requires forall i :: 0 <= i < |s| ==> Unreserved(s[i])
    ensures EncodeUriComponent(s) == s
    decreases |s|
  {
    if s != [] {
      EncodeUnreserved(s[1..]);
      assert [s[0]] + s[1..] == s;
    }
  }

  lemma {:induction false} EncodeAppend(a: string, b: string)
    ensures EncodeUriComponent(a + b) == EncodeUriComponent(a) + EncodeUriComponent(b)
    decreases |a|
  {
    if a != [] {
      assert (a + b)[1..] == a[1..] + b;
      EncodeAppend(a[1..], b);
    } else {
      assert a + b == b;
    }
  }

  lemma {:induction false} EncodeAppend5(a: string, b: string, c: string, d: string, e: string)
    ensures EncodeUriComponent(a + b + c + d + e) ==
      EncodeUriComponent(a) + EncodeUriComponent(b) + EncodeUriComponent(c)
      + EncodeUriComponent(d) + EncodeUriComponent(e)
  {
    EncodeAppend(a, b);
    EncodeAppend(a + b, c);
    EncodeAppend(a + b + c, d);
    EncodeAppend(a + b + c + d, e);
  }

  /** Cuts the callback address and its encoding into matching literal pieces. */
  lemma CallbackUrlPieces()
    ensures CallbackUrl == "http:" + "//" + "localhost" + ":9900" + ("/" + "callback")
    ensures EncodedCallbackUrl == "http%3A" + "%2F%2F" + "localhost" + "%3A9900" + ("%2F" + "callback")
  {
  }

  /** Encodes one literal piece of the callback address. */
  lemma EncodeScheme()
    ensures EncodeUriComponent("http:") == "http%3A"
  {
  }

  /** Encodes one literal piece of the callback address. */
  lemma EncodeSlashes()
    ensures EncodeUriComponent("//") == "%2F%2F"
  {
  }

  /** Encodes one literal piece of the callback address. */
  lemma EncodeHost()
    ensures EncodeUriComponent("localhost") == "localhost"
  {
    EncodeUnreserved("localhost");
  }

  /** Encodes one literal piece of the callback address. */
  lemma EncodePort()
    ensures EncodeUriComponent(":9900") == "%3A9900"
  {
  }

  /** Encodes one literal piece of the callback address. */
  lemma EncodeSlash()
    ensures EncodeUriComponent("/") == "%2F"
  {
  }

  /** Encodes one literal piece of the callback address. */
  lemma EncodeRouteName()
    ensures EncodeUriComponent("callback") == "callback"
  {
    EncodeUnreserved("callback");
  }

  /** The callback address as it appears in the login URL. */
  lemma CallbackUrlEncoding()
    ensures EncodeUriComponent(CallbackUrl) == EncodedCallbackUrl
  {
    CallbackUrlPieces();
    EncodeScheme();
    EncodeSlashes();
    EncodeHost();
    EncodePort();
    EncodeSlash();
    EncodeRouteName();
    var slash, name := "/", "callback";
    EncodeAppend(slash, name);
    EncodeAppend5("http:", "//", "localhost", ":9900", slash + name);
  }

  lemma {:induction false} AsciiAppend(a: string, b: string)
    requires IsAscii(a) && IsAscii(b)
    ensures IsAscii(a + b)
  {
    forall i | 0 <= i < |a + b|
      ensures (a + b)[i] as int < 128
    {
      if i < |a| {
        assert (a + b)[i] == a[i];
      } else {
        assert (a + b)[i] == b[i - |a|];
      }
    }
  }

  lemma CallbackUrlIsAscii()
    ensures IsAscii(CallbackUrl)
  {
    CallbackUrlPieces();
    var a, b, c, d, e, f := "http:", "//", "localhost", ":9900", "/", "callback";
    AsciiAppend(e, f);
    AsciiAppend(a, b);
    AsciiAppend(a + b, c);
    AsciiAppend(a + b + c, d);
    AsciiAppend(a + b + c + d, e + f);
  }

  /** The login URL is the backend's GitHub login route with
      `encodeURIComponent(callbackURL)` as its `callback` parameter. */
  lemma LoginUrlEncodesCallback(apiBase: string)
    ensures LoginUrl(apiBase) == apiBase + "/api/auth/github?callback=" + EncodeUriComponent(CallbackUrl)
  {
    CallbackUrlEncoding();
  }

  lemma RouteHasNoQuery(apiBase: string)
    requires '?' !in apiBase && '#' !in apiBase
    ensures var path := apiBase + "/api/auth/github"; '?' !in path && '#' !in path
  {
    var route := "/api/auth/github";
    var path := apiBase + route;
    assert forall i :: 0 <= i < |route| ==> route[i] != '?' && route[i] != '#';
    forall i | 0 <= i < |path|
      ensures path[i] != '?' && path[i] != '#'
    {
      if i >= |apiBase| {
        assert path[i] == route[i - |apiBase|];
      } else {
        assert path[i] == apiBase[i];
      }
    }
  }

  lemma EncodedHasNoQueryDelimiter(s: string)
    ensures var e := EncodeUriComponent(s); '&' !in e && '#' !in e && '+' !in e
  {
    var e := EncodeUriComponent(s);
    EncodedIsQuerySafe(s);
    forall i | 0 <= i < |e|
      ensures e[i] != '&' && e[i] != '#' && e[i] != '+'
    {
      assert Unreserved(e[i]) || e[i] == '%';
    }
  }

  /** The encoded callback decodes to exactly the callback address. */
  lemma CallbackDecodes()
    ensures DecodeUriComponent(EncodedCallbackUrl) == Some(CallbackUrl)
  {
    CallbackUrlEncoding();
    CallbackUrlIsAscii();
    EncodeDecodeRoundTrip(CallbackUrl);
  }

  lemma CallbackParamRoundTrip(path: string, v: string)
    requires '?' !in path && '#' !in path
    requires '&' !in v && '#' !in v && '+' !in v
    ensures QueryParam(path + "?callback=" + v, "callback") == Some(v)
  {
    assert path + "?callback=" + v == path + "?" + Leading([]) + "callback" + "=" + v + "";
    QueryParamRoundTrip(path, [], "callback", v, "");
  }

  /** Read back from the login URL, the `callback` parameter is the encoded
      callback address, which decodes to exactly that address. */
  lemma LoginUrlCarriesCallback(apiBase: string)
    requires '?' !in apiBase && '#' !in apiBase
    ensures QueryParam(LoginUrl(apiBase), "callback") == Some(EncodedCallbackUrl)
    ensures DecodeUriComponent(QueryParam(LoginUrl(apiBase), "callback").value) == Some(CallbackUrl)
  {
    var path := apiBase + "/api/auth/github";
    assert LoginUrl(apiBase) == path + "?callback=" + EncodedCallbackUrl;
    RouteHasNoQuery(apiBase);
    CallbackUrlEncoding();
    EncodedHasNoQueryDelimiter(CallbackUrl);
    CallbackParamRoundTrip(path, EncodedCallbackUrl);
    CallbackDecodes();
  }

  /** With `API_BASE` unset or empty the browser is sent to the hosted
      backend; any other value is used as given. */
  lemma ApiBaseDefault(env: Option<string>)
    ensures env.None? || env.value == "" ==> ApiBase(env) == "https://commitai-backend.onrender.com"
    ensures env.Some? && env.value != "" ==> ApiBase(env) == env.value
  {
  }

  /** The persisted configuration that `writeConfig` replaces. */
  class CredentialStore {
    var token: Option<string>

    constructor (stored: Option<string>)
      ensures token == stored
    {
      token := stored;
    }

    /** `writeConfig({ token })`. */
    method Write(t: string)
      modifies this
      ensures token == Some(t)
    {
      token := Some(t);
    }
  }

  /** What `open(loginURL)` did. */
  datatype Browser = Opened | OpenFailed(error: string)

  /** The command's observable actions, in order. */
  datatype Event = OpenBrowser(url: string) | StartListening(port: int) | WriteConfig(token: string)

  /** How the command ends: its promise resolved after a login, rejected,
      still waiting because no callback ever arrived, or the whole process
      ended by the TypeError a rejected callback target throws inside the
      request handler, where nothing catches it. */
  datatype LoginOutcome = LoggedIn(token: string) | LoginRejected(reason: string) | StillWaiting | ProcessEnded(error: string)

  const InvalidUrl := "TypeError: Invalid URL"

  /** `loginCommand()`; `callback` is the request that reaches the
      listener, if one does. */
  method LoginCommand(env: Option<string>, browser: Browser, callback: Option<Incoming>, store: CredentialStore)
    returns (outcome: LoginOutcome, events: seq<Event>)
    modifies store
    ensures browser.OpenFailed? ==>
      outcome == LoginRejected(browser.error) && events == [OpenBrowser(LoginUrl(ApiBase(env)))]
    ensures browser.Opened? ==>
      events == [OpenBrowser(LoginUrl(ApiBase(env))), StartListening(ListenPort)]
        + (if outcome.LoggedIn? then [WriteConfig(outcome.token)] else [])
    ensures browser.Opened? && callback.None? ==> outcome == StillWaiting
    ensures browser.Opened? && callback.Some? && !callback.value.accepted ==> outcome == ProcessEnded(InvalidUrl)
    ensures browser.Opened? && callback.Some? && callback.value.accepted && Absent(QueryToken(callback.value.target))
      ==> outcome == LoginRejected(NoToken)
    ensures browser.Opened? && callback.Some? && callback.value.accepted && !Absent(QueryToken(callback.value.target))
      ==> outcome == LoggedIn(QueryToken(callback.value.target).value)
    ensures forall t :: WriteConfig(t) in events <==> outcome == LoggedIn(t)
    ensures outcome.LoggedIn? ==> store.token == Some(outcome.token)
    ensures !outcome.LoggedIn? ==> store.token == old(store.token)
  {
    var loginUrl := LoginUrl(ApiBase(env));
    events := [OpenBrowser(loginUrl)];
    if browser.OpenFailed? {
      outcome := LoginRejected(browser.error);
      return;
    }
    var listener := new CallbackListener.Listen();
    events := events + [StartListening(listener.port)];
    if callback.None? {
      outcome := StillWaiting;
      return;
    }
    listener.HandleRequest(callback.value);
    match listener.state {
      case Resolved(t) =>
        store.Write(t);
        events := events + [WriteConfig(t)];
        outcome := LoggedIn(t);
      case Failed(reason) =>
        outcome := LoginRejected(reason);
      case Waiting =>
        outcome := ProcessEnded(InvalidUrl);
    }
  }
}
