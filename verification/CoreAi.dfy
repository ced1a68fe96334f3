/** The backend client that asks the CommitAI service for commit messages
    (src/core/ai.js). Reading the stored token, listing the changed files
    and the HTTP exchange are inputs; the function decides what the async
    call settles with and which request, if any, it sends. */
module CoreAi {
  import opened Wrappers
  import opened JsValue
  import opened Candidates

  /** `API_BASE` of this file when the environment does not set it. */
  const DefaultApiBase := "http://localhost:4000"

  const LoginFirstMessage := "chore: please login first"
  const FallbackMessage := "chore: fallback commit message"
  const UnknownFiles := "unknown files"

  /** The single candidate returned when no token is stored. */
  const LoginFirst: seq<Candidate> := [Candidate(1, Str(LoginFirstMessage))]

  /** The single candidate returned on every failure inside the `try`. */
  const Fallback: seq<Candidate> := [Candidate(1, Str(FallbackMessage))]

  function ApiBase(env: Option<string>): string
  {
    EnvOr(env, DefaultApiBase)
  }

  /** What `readConfig()` gave: the stored `token` (absent when the config
      has none), or a throw. A `null` or `undefined` config is a throw too,
      because destructuring `{ token }` from it fails. It runs before the
      `try`. */
  datatype StoredConfig = Config(token: Option<string>) | ConfigThrew(error: string)

  /** What `getChangedFiles()` did. It runs before the `try`, so a throw
      there is not turned into a fallback. */
  datatype ChangedFiles = Listed(paths: seq<string>) | Threw(error: string)

  /** The JSON object `{ diff, filesList }` sent as the request body. */
  datatype Payload = Payload(diff: string, filesList: string)

  datatype Request = Request(url: string, verb: string, headers: seq<(string, string)>, body: Payload)

  /** What `res.json()` did with the response body. */
  datatype Body = Malformed(reason: string) | Parsed(data: Value)

  /** What `fetch` did: rejected (service unreachable) or answered. */
  datatype Response = Unreachable(reason: string) | Replied(status: int, body: Body)

  /** What the promise of `generateCommitMessages` settles with. */
  datatype Reply = Returned(candidates: seq<Candidate>) | ReturnedNull | Rejected(error: string)

  /** One call: the request sent, if any, and the reply. */
  datatype Run = Run(sent: Option<Request>, reply: Reply)

  /** `paths.join(", ")`. */
  function Join(paths: seq<string>): string
    decreases |paths|
  {
    if |paths| == 0 then ""
    else if |paths| == 1 then paths[0]
    else paths[0] + ", " + Join(paths[1..])
  }

  /** The first path opens the joined text and the last one closes it;
      with two or more paths the separator follows the first. */
  lemma {:induction false} JoinShape(paths: seq<string>)
    ensures |paths| == 0 ==> Join(paths) == ""
    ensures |paths| > 0 ==> paths[0] <= Join(paths)
    ensures |paths| > 0 ==>
      var last := paths[|paths| - 1];
      |last| <= |Join(paths)| && Join(paths)[|Join(paths)| - |last|..] == last
    ensures |paths| > 1 ==> |paths[0]| + 2 <= |Join(paths)| && Join(paths)[|paths[0]|..|paths[0]| + 2] == ", "
    decreases |paths|
  {
    if |paths| > 1 {
      JoinShape(paths[1..]);
      assert paths[1..][|paths[1..]| - 1] == paths[|paths| - 1];
    }
  }

  /** The `filesList` sent to the service. */
  function FilesList(paths: seq<string>): string
  {
    if |paths| > 0 then Join(paths) else UnknownFiles
  }

  /** True when `s` contains the separator ", ". */
  predicate HasSeparator(s: string)
  {
    exists i :: 0 <= i < |s| - 1 && s[i] == ',' && s[i + 1] == ' '
  }

  /** `s.split(", ")`: the inverse against which `Join` is checked. */
  function Split(s: string): (r: seq<string>)
    ensures |r| > 0
    decreases |s|
  {
    if |s| >= 2 && s[0] == ',' && s[1] == ' ' then [""] + Split(s[2..])
    else if s == [] then [""]
    else
      var rest := Split(s[1..]);
      [[s[0]] + rest[0]] + rest[1..]
  }

  lemma {:induction false} SplitWithoutSeparator(s: string)
    requires !HasSeparator(s)
    ensures Split(s) == [s]
    decreases |s|
  {
    if s != [] {
      assert !HasSeparator(s[1..]) by {
        forall i | 0 <= i < |s[1..]| - 1
          ensures !(s[1..][i] == ',' && s[1..][i + 1] == ' ')
        {
          assert s[1..][i] == s[i + 1] && s[1..][i + 1] == s[i + 2];
        }
      }
      SplitWithoutSeparator(s[1..]);
      assert !(s[0] == ',' && |s| >= 2 && s[1] == ' ');
      assert [s[0]] + s[1..] == s;
    }
  }

  /** A piece without the separator, followed by the separator, splits off
      exactly that piece. */
  lemma {:induction false} SplitAtSeparator(x: string, t: string)
    requires !HasSeparator(x)
    requires |t| >= 2 && t[0] == ',' && t[1] == ' '
    ensures Split(x + t) == [x] + Split(t[2..])
    decreases |x|
  {
    if x == [] {
      assert x + t == t;
    } else {
      var s := x + t;
      assert !HasSeparator(x[1..]) by {
        forall i | 0 <= i < |x[1..]| - 1
          ensures !(x[1..][i] == ',' && x[1..][i + 1] == ' ')
        {
          assert x[1..][i] == x[i + 1] && x[1..][i + 1] == x[i + 2];
        }
      }
      assert s[1..] == x[1..] + t;
      SplitAtSeparator(x[1..], t);
      if |x| == 1 {
        assert s[1] == ',';
      } else {
        assert s[0] == x[0] && s[1] == x[1];
        assert !(x[0] == ',' && x[1] == ' ');
      }
      assert [x[0]] + x[1..] == x;
    }
  }

  /** Splitting the joined list at ", " gives the list back, provided no
      path contains ", " itself. */
  lemma {:induction false} SplitJoin(paths: seq<string>)
    requires |paths| > 0
    requires forall i :: 0 <= i < |paths| ==> !HasSeparator(paths[i])
    ensures Split(Join(paths)) == paths
    decreases |paths|
  {
    if |paths| == 1 {
      SplitWithoutSeparator(paths[0]);
    } else {
      var t := ", " + Join(paths[1..]);
      assert Join(paths) == paths[0] + t;
      SplitAtSeparator(paths[0], t);
      assert t[2..] == Join(paths[1..]);
      SplitJoin(paths[1..]);
      assert [paths[0]] + paths[1..] == paths;
    }
  }

  /** `filesList` is the placeholder for no files, and otherwise the paths
      joined so that splitting at ", " recovers them. */
  lemma FilesListSpec(paths: seq<string>)
    requires forall i :: 0 <= i < |paths| ==> !HasSeparator(paths[i])
    ensures |paths| == 0 ==> FilesList(paths) == UnknownFiles
    ensures |paths| > 0 ==> Split(FilesList(paths)) == paths
  {
    if |paths| > 0 {
      SplitJoin(paths);
    }
  }

  /** The POST to `${API_BASE}/api/generate` with a bearer token. */
  function GenerateRequest(apiBase: string, token: string, diff: string, filesList: string): (r: Request)
    ensures r.url == apiBase + "/api/generate" && r.verb == "POST"
    ensures Header(r.headers, "Content-Type") == Some("application/json")
    ensures Header(r.headers, "Authorization") == Some("Bearer " + token)
    ensures r.body.diff == diff && r.body.filesList == filesList
  {
    Request(
      apiBase + "/api/generate",
      "POST",
      [("Content-Type", "application/json"), ("Authorization", "Bearer " + token)],
      Payload(diff, filesList))
  }

  /** The value of the first header called `name`. */
  function Header(headers: seq<(string, string)>, name: string): Option<string>
    decreases |headers|
  {
    if headers == [] then None
    else if headers[0].0 == name then Some(headers[0].1)
    else Header(headers[1..], name)
  }

  /** `s.message` for every element of `suggestions`, in order; a TypeError
      as soon as one element is `null` or `undefined`. */
  function MessagesOf(suggestions: seq<Value>): (r: Result<seq<Value>, string>)
    ensures r.Ok? <==> forall i :: 0 <= i < |suggestions| ==> Get(suggestions[i], "message").Ok?
    ensures r.Ok? ==> |r.value| == |suggestions|
    ensures r.Ok? ==> forall i :: 0 <= i < |suggestions| ==> r.value[i] == Get(suggestions[i], "message").value
    decreases |suggestions|
  {
    if suggestions == [] then Ok([])
    else
      match Get(suggestions[0], "message")
      case Err(e) => Err(e)
      case Ok(m) =>
        match MessagesOf(suggestions[1..])
        case Err(e) => Err(e)
        case Ok(rest) => Ok([m] + rest)
  }

  /** `data.suggestions.map((s, i) => ({ id: i + 1, message: s.message }))`:
      a TypeError unless `suggestions` is an array whose elements can all be
      read. */
  function Renumbered(data: Value): (r: Result<seq<Candidate>, string>)
    requires data != Undefined && data != Null
    ensures r.Ok? <==>
      (Get(data, "suggestions").value.Arr? && MessagesOf(Get(data, "suggestions").value.items).Ok?)
    ensures r.Ok? ==>
      var items := Get(data, "suggestions").value.items;
      && |r.value| == |items|
      && forall i :: 0 <= i < |items| ==> r.value[i] == Candidate(i + 1, Get(items[i], "message").value)
  {
    match Get(data, "suggestions").value
    case Arr(items) =>
      (match MessagesOf(items)
       case Ok(messages) => Ok(Numbered(messages))
       case Err(e) => Err(e))
    case _ => Err("TypeError: data.suggestions.map is not a function")
  }

  /** The `try`/`catch` from the `fetch` on, with `onRateLimit` as what the
      429 branch yields. */
  function SettleWith(response: Response, onRateLimit: Reply): (r: Reply)
  {
    match response
    case Unreachable(_) => Returned(Fallback)
    case Replied(_, Malformed(_)) => Returned(Fallback)
    case Replied(status, Parsed(data)) =>
      match Get(data, "success")
      case Err(_) => Returned(Fallback)
      case Ok(success) =>
        if !Truthy(success) then Returned(Fallback)
        else if status == 429 then onRateLimit
        else
          match Renumbered(data)
          case Ok(cs) => Returned(cs)
          case Err(_) => Returned(Fallback)
  }

  /** The `try`/`catch` as written. The 429 branch evaluates `chalk`, which
      this file never imports: the ReferenceError lands in the `catch`, so
      the branch yields the generic fallback, not `null`. */
  function Settle(response: Response): (r: Reply)
    ensures r.Returned?
    ensures response.Unreachable? ==> r == Returned(Fallback)
    ensures response.Replied? && response.body.Malformed? ==> r == Returned(Fallback)
    ensures response.Replied? && response.body.Parsed? && Get(response.body.data, "success").Ok?
      && !Truthy(Get(response.body.data, "success").value)
      ==> r == Returned(Fallback)
    ensures response.Replied? && response.status == 429 ==> r == Returned(Fallback)
  {
    SettleWith(response, Returned(Fallback))
  }

  /** What the code evidently intends: `chalk` bound, so a rate-limited
      response that claims success yields `null`. */
  function SettleIntended(response: Response): (r: Reply)
    ensures r == ReturnedNull <==>
      response.Replied? && response.status == 429 && response.body.Parsed?
      && Get(response.body.data, "success").Ok? && Truthy(Get(response.body.data, "success").value)
    ensures r != ReturnedNull ==> r == Settle(response)
  {
    SettleWith(response, ReturnedNull)
  }

  /** `generateCommitMessages(diff)` with `API_BASE` taken from the
      environment variable `env`. */
  function Generate(config: StoredConfig, diff: string, files: ChangedFiles, env: Option<string>, response: Response): (r: Run)
    ensures config.ConfigThrew? ==> r == Run(None, Rejected(config.error))
    ensures config.Config? && (config.token.None? || config.token.value == "") ==>
      r == Run(None, Returned(LoginFirst))
    ensures r.sent.Some? <==>
      config.Config? && config.token.Some? && config.token.value != "" && files.Listed?
    ensures r.sent.Some? ==>
      && r.sent.value.url == ApiBase(env) + "/api/generate"
      && r.sent.value.verb == "POST"
      && Header(r.sent.value.headers, "Content-Type") == Some("application/json")
      && Header(r.sent.value.headers, "Authorization") == Some("Bearer " + config.token.value)
      && r.sent.value.body == Payload(diff, FilesList(files.paths))
    ensures r.reply.Rejected? <==>
      config.ConfigThrew? || (config.token.Some? && config.token.value != "" && files.Threw?)
    ensures r.reply.Rejected? && config.Config? ==> r == Run(None, Rejected(files.error))
    ensures r.sent.Some? ==> r.reply == Settle(response)
    ensures r.reply != ReturnedNull
  {
    match config
    case ConfigThrew(e) => Run(None, Rejected(e))
    case Config(token) =>
      if token.None? || token.value == "" then Run(None, Returned(LoginFirst))
      else
        match files
        case Threw(e) => Run(None, Rejected(e))
        case Listed(paths) =>
          Run(Some(GenerateRequest(ApiBase(env), token.value, diff, FilesList(paths))), Settle(response))
  }

  /** Without `API_BASE` in the environment the request goes to the local
      development backend. */
  lemma DefaultEndpoint(token: string, diff: string, paths: seq<string>, response: Response)
    requires token != ""
    ensures Generate(Config(Some(token)), diff, Listed(paths), None, response).sent
      == Some(GenerateRequest("http://localhost:4000", token, diff, FilesList(paths)))
    ensures Generate(Config(Some(token)), diff, Listed(paths), Some(""), response).sent.value.url
      == "http://localhost:4000/api/generate"
  {
  }

  /** A truthy `success`, a status other than 429 and an array of readable
      suggestions give those messages, in order, numbered 1..N. */
  lemma SuccessRenumbers(status: int, data: Value, items: seq<Value>)
    requires status != 429
    requires data != Undefined && data != Null
    requires Truthy(Get(data, "success").value)
    requires Get(data, "suggestions").value == Arr(items)
    requires forall i :: 0 <= i < |items| ==> items[i] != Undefined && items[i] != Null
    ensures Settle(Replied(status, Parsed(data))).Returned?
    ensures var cs := Settle(Replied(status, Parsed(data))).candidates;
      && |cs| == |items|
      && forall i :: 0 <= i < |items| ==> cs[i] == Candidate(i + 1, Get(items[i], "message").value)
  {
    var r := MessagesOf(items);
    assert r.Ok?;
    var cs := Numbered(r.value);
    assert Settle(Replied(status, Parsed(data))) == Returned(cs);
  }

  /** Every failure inside the `try` yields the same single fallback
      candidate; the only other replies are the renumbered suggestions. */
  lemma SettleOutcomes(response: Response)
    ensures Settle(response) == Returned(Fallback) ||
      (response.Replied? && response.status != 429 && response.body.Parsed?
       && Truthy(Get(response.body.data, "success").value)
       && Renumbered(response.body.data).Ok?
       && Settle(response) == Returned(Renumbered(response.body.data).value))
  {
  }

  /** An empty `suggestions` array is not a failure: the reply is an empty
      list, not the fallback. */
  lemma EmptySuggestionsGiveEmptyList(status: int)
    requires status != 429
    ensures Settle(Replied(status, Parsed(Obj([("success", Bool(true)), ("suggestions", Arr([]))]))))
      == Returned([])
  {
    assert MessagesOf([]) == Ok([]);
  }

  /** A rate-limited response claiming success yields the fallback, although
      the code evidently meant `null`. */
  lemma RateLimitYieldsFallback()
    ensures
      var response := Replied(429, Parsed(Obj([("success", Bool(true)), ("error", Str("rate limit exceeded"))])));
      Settle(response) == Returned(Fallback) && SettleIntended(response) == ReturnedNull
  {
  }

  /** One suggestion from the service, one candidate with id 1. */
  lemma SingleSuggestionExample()
    ensures
      var data := Obj([("success", Bool(true)),
                       ("suggestions", Arr([Obj([("message", Str("feat(x.js): add log statement"))])]))]);
      Generate(Config(Some("abc123")), "diff --git a/x.js b/x.js\n+console.log('hi')", Listed(["x.js"]),
               None, Replied(200, Parsed(data))).reply
      == Returned([Candidate(1, Str("feat(x.js): add log statement"))])
  {
    var item := Obj([("message", Str("feat(x.js): add log statement"))]);
    assert Get(item, "message") == Ok(Str("feat(x.js): add log statement"));
    assert [item][1..] == [];
    assert MessagesOf([]) == Ok([]);
    assert [Str("feat(x.js): add log statement")] + [] == [Str("feat(x.js): add log statement")];
    assert MessagesOf([item]) == Ok([Str("feat(x.js): add log statement")]);
  }
}
