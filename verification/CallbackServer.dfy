/** The one-shot local listener that receives the login token
    (src/core/localCallbackServer.js): the `token` query parameter of the
    first request settles the wait, and the listener is closed on both
    outcomes. */
module CallbackServer {
  import opened Wrappers

  const ListenPort := 9900
  const NoToken := "No token"

  /** The query of a request target: what follows the first '?' up to a
      '#', or "" when a '#' or the end comes first. Resolving the target
      against `http://localhost:9900` does not change it. */
  function QueryOf(target: string): (r: string)
    ensures '#' !in r
    decreases |target|
  {
    if target == [] || target[0] == '#' then ""
    else if target[0] == '?' then UpToHash(target[1..])
    else QueryOf(target[1..])
  }

  /** The longest prefix of `s` without '#'. */
  function UpToHash(s: string): (r: string)
    ensures '#' !in r
    ensures |r| <= |s| && r == s[..|r|]
    ensures |r| < |s| ==> s[|r|] == '#'
    decreases |s|
  {
    if s == [] || s[0] == '#' then "" else [s[0]] + UpToHash(s[1..])
  }

  /** The pieces put back together with `c` between them. */
  function Glue(pieces: seq<string>, c: char): string
    requires |pieces| > 0
    decreases |pieces|
  {
    if |pieces| == 1 then pieces[0] else pieces[0] + [c] + Glue(pieces[1..], c)
  }

  /** `s.split(c)`: the pieces between the occurrences of `c`. */
  function SplitOn(s: string, c: char): (r: seq<string>)
    ensures |r| > 0
    ensures forall i :: 0 <= i < |r| ==> c !in r[i]
    decreases |s|
  {
    if s == [] then [""]
    else
      var rest := SplitOn(s[1..], c);
      if s[0] == c then [""] + rest else [[s[0]] + rest[0]] + rest[1..]
  }

  /** A character absent from the string is absent from every piece. */
  lemma {:induction false} SplitOnKeepsOut(s: string, c: char, d: char)
    requires d !in s
    ensures forall i :: 0 <= i < |SplitOn(s, c)| ==> d !in SplitOn(s, c)[i]
    decreases |s|
  {
    if s != [] {
      SplitOnKeepsOut(s[1..], c, d);
      var rest := SplitOn(s[1..], c);
      if s[0] != c {
        var r := [[s[0]] + rest[0]] + rest[1..];
        assert forall i :: 1 <= i < |r| ==> r[i] == rest[i];
      }
    }
  }

  /** The pieces glue back to the string split. */
  lemma {:induction false} SplitOnGlues(s: string, c: char)
    ensures Glue(SplitOn(s, c), c) == s
    decreases |s|
  {
    if s != [] {
      var rest := SplitOn(s[1..], c);
      SplitOnGlues(s[1..], c);
      assert s == [s[0]] + s[1..];
      if s[0] == c {
        assert ([""] + rest)[1..] == rest;
      } else {
        var r := [[s[0]] + rest[0]] + rest[1..];
        if |rest| > 1 {
          assert r[1..] == rest[1..];
        }
      }
    }
  }

  /** A name-value pair of the query split at its first '='; without '=' the
      whole pair is the name and the value is empty. */
  function SplitAtEquals(pair: string): (r: (string, string))
    ensures '=' !in r.0
    ensures '=' in pair ==> pair == r.0 + "=" + r.1
    ensures '=' !in pair ==> r == (pair, "")
    decreases |pair|
  {
    if pair == [] then ("", "")
    else if pair[0] == '=' then ("", pair[1..])
    else
      var rest := SplitAtEquals(pair[1..]);
      assert pair == [pair[0]] + pair[1..];
      ([pair[0]] + rest.0, rest.1)
  }

  /** The form-urlencoded '+' that stands for a space. */
  function PlusToSpace(s: string): (r: string)
    ensures |r| == |s|
    ensures forall i :: 0 <= i < |s| ==> r[i] == if s[i] == '+' then ' ' else s[i]
    decreases |s|
  {
    if s == [] then "" else [if s[0] == '+' then ' ' else s[0]] + PlusToSpace(s[1..])
  }

  /** `searchParams.get(name)` over the '&'-separated pairs: the value of
      the first non-empty pair whose name is `name`. */
  function FirstValue(pairs: seq<string>, name: string): (r: Option<string>)
    ensures r.None? <==> forall i :: 0 <= i < |pairs| ==> !Names(pairs[i], name)
    decreases |pairs|
  {
    if pairs == [] then None
    else if Names(pairs[0], name) then Some(PlusToSpace(SplitAtEquals(pairs[0]).1))
    else FirstValue(pairs[1..], name)
  }

  /** What `get` finds is the value of the first pair named `name`. */
  lemma {:induction false} FirstValueIsFirstMatch(pairs: seq<string>, name: string)
    ensures FirstValue(pairs, name).Some? ==>
      exists i :: (0 <= i < |pairs| && Names(pairs[i], name)
        && FirstValue(pairs, name).value == PlusToSpace(SplitAtEquals(pairs[i]).1)
        && forall j :: 0 <= j < i ==> !Names(pairs[j], name))
    decreases |pairs|
  {
    var r := FirstValue(pairs, name);
    if r.Some? && !Names(pairs[0], name) {
      var tail := pairs[1..];
      FirstValueIsFirstMatch(tail, name);
      var i :| 0 <= i < |tail| && Names(tail[i], name)
        && r.value == PlusToSpace(SplitAtEquals(tail[i]).1)
        && forall j :: 0 <= j < i ==> !Names(tail[j], name);
      assert pairs[i + 1] == tail[i];
      forall j | 0 <= j < i + 1
        ensures !Names(pairs[j], name)
      {
        if j > 0 { assert pairs[j] == tail[j - 1]; }
      }
    }
  }

  /** A non-empty pair whose name, with '+' read as a space, is `name`. */
  predicate Names(pair: string, name: string)
  {
    pair != "" && PlusToSpace(SplitAtEquals(pair).0) == name
  }

  /** `new URL(target, base).searchParams.get(name)`. */
  function QueryParam(target: string, name: string): (r: Option<string>)
    ensures r.Some? ==> '&' !in r.value && '#' !in r.value
  {
    var pairs := SplitOn(QueryOf(target), '&');
    FirstValueIsFirstMatch(pairs, name);
    SplitOnKeepsOut(QueryOf(target), '&', '#');
    ValueFree(pairs, name);
    FirstValue(pairs, name)
  }

  lemma ValueFree(pairs: seq<string>, name: string)
    requires forall i :: 0 <= i < |pairs| ==> '&' !in pairs[i] && '#' !in pairs[i]
    requires FirstValue(pairs, name).Some? ==>
      exists i :: (0 <= i < |pairs| && Names(pairs[i], name)
        && FirstValue(pairs, name).value == PlusToSpace(SplitAtEquals(pairs[i]).1))
    ensures FirstValue(pairs, name).Some? ==>
      var v := FirstValue(pairs, name).value; '&' !in v && '#' !in v
  {
    if FirstValue(pairs, name).Some? {
      var i :| 0 <= i < |pairs| && Names(pairs[i], name)
        && FirstValue(pairs, name).value == PlusToSpace(SplitAtEquals(pairs[i]).1);
      var pair := pairs[i];
      var value := SplitAtEquals(pair).1;
      if '=' in pair {
        assert pair == SplitAtEquals(pair).0 + "=" + value;
        assert forall k :: 0 <= k < |value| ==> value[k] == pair[|pair| - |value| + k];
      }
      var v := PlusToSpace(value);
      assert forall k :: 0 <= k < |v| ==> v[k] == ' ' || v[k] == value[k];
    }
  }

  function QueryToken(target: string): Option<string>
  {
    QueryParam(target, "token")
  }

  /** `!token`: a missing parameter and an empty one are both absent. */
  predicate Absent(token: Option<string>)
  {
    token.None? || token.value == ""
  }

  lemma {:induction false} QueryOfAfterPath(path: string, query: string)
    requires '?' !in path && '#' !in path
    ensures QueryOf(path + "?" + query) == UpToHash(query)
    decreases |path|
  {
    if path == [] {
      assert (path + "?" + query)[1..] == query;
    } else {
      assert (path + "?" + query)[1..] == path[1..] + "?" + query;
      QueryOfAfterPath(path[1..], query);
    }
  }

  lemma {:induction false} UpToHashKeeps(a: string, t: string)
    requires '#' !in a
    requires t == [] || t[0] == '#' || t[0] == '&'
    ensures UpToHash(a + t) == a + UpToHash(t)
    decreases |a|
  {
    if a != [] {
      assert (a + t)[1..] == a[1..] + t;
      UpToHashKeeps(a[1..], t);
      assert [a[0]] + (a[1..] + UpToHash(t)) == a + UpToHash(t);
    } else {
      assert a + t == t;
    }
  }

  lemma {:induction false} SplitOnFirst(a: string, t: string, c: char)
    requires c !in a
    requires t == [] || t[0] == c
    ensures SplitOn(a + t, c)[0] == a
    decreases |a|
  {
    if a == [] {
      assert a + t == t;
    } else {
      assert (a + t)[1..] == a[1..] + t;
      SplitOnFirst(a[1..], t, c);
      assert [a[0]] + a[1..] == a;
    }
  }

  lemma {:induction false} PlusToSpaceKeeps(s: string)
    requires '+' !in s
    ensures PlusToSpace(s) == s
  {
    assert forall i :: 0 <= i < |s| ==> PlusToSpace(s)[i] == s[i];
  }

  lemma {:induction false} SplitAtFirstEquals(name: string, value: string)
    requires '=' !in name
    ensures SplitAtEquals(name + "=" + value) == (name, value)
    decreases |name|
  {
    if name == [] {
      assert name + "=" + value == "=" + value;
      assert ("=" + value)[1..] == value;
    } else {
      assert (name + "=" + value)[1..] == name[1..] + "=" + value;
      SplitAtFirstEquals(name[1..], value);
      assert [name[0]] + name[1..] == name;
    }
  }

  /** Pairs written in front of another pair, each followed by '&'. */
  function Leading(pairs: seq<string>): string
    decreases |pairs|
  {
    if pairs == [] then "" else pairs[0] + "&" + Leading(pairs[1..])
  }

  lemma {:induction false} LeadingFree(pairs: seq<string>, c: char)
    requires c != '&'
    requires forall i :: 0 <= i < |pairs| ==> c !in pairs[i]
    ensures c !in Leading(pairs)
    decreases |pairs|
  {
    if pairs != [] {
      LeadingFree(pairs[1..], c);
    }
  }

  /** Splitting right after a piece free of `c` peels that piece off. */
  lemma {:induction false} SplitOnAppend(a: string, b: string, c: char)
    requires c !in a
    ensures SplitOn(a + [c] + b, c) == [a] + SplitOn(b, c)
    decreases |a|
  {
    if a == [] {
      assert (a + [c] + b)[1..] == b;
    } else {
      assert (a + [c] + b)[1..] == a[1..] + [c] + b;
      SplitOnAppend(a[1..], b, c);
      assert [a[0]] + a[1..] == a;
    }
  }

  lemma {:induction false} SplitLeading(pairs: seq<string>, rest: string)
    requires forall i :: 0 <= i < |pairs| ==> '&' !in pairs[i]
    ensures SplitOn(Leading(pairs) + rest, '&') == pairs + SplitOn(rest, '&')
    decreases |pairs|
  {
    if pairs == [] {
      assert Leading(pairs) + rest == rest;
    } else {
      var tail := Leading(pairs[1..]) + rest;
      assert Leading(pairs) + rest == pairs[0] + ['&'] + tail;
      SplitOnAppend(pairs[0], tail, '&');
      SplitLeading(pairs[1..], rest);
      assert pairs == [pairs[0]] + pairs[1..];
    }
  }

  /** Pairs with other names do not change what `get` finds. */
  lemma {:induction false} FirstValueSkips(others: seq<string>, pairs: seq<string>, name: string)
    requires forall i :: 0 <= i < |others| ==> !Names(others[i], name)
    ensures FirstValue(others + pairs, name) == FirstValue(pairs, name)
    decreases |others|
  {
    if others == [] {
      assert others + pairs == pairs;
    } else {
      var all := others + pairs;
      assert all[0] == others[0] && !Names(others[0], name);
      assert all[1..] == others[1..] + pairs;
      assert FirstValue(all, name) == FirstValue(all[1..], name);
      assert forall i :: 0 <= i < |others| - 1 ==> others[1..][i] == others[i + 1];
      FirstValueSkips(others[1..], pairs, name);
    }
  }

  /** The query of `path?<others, each followed by '&'><pair><tail>` runs
      up to the first '#' of `tail`. */
  lemma QueryAfterPairs(path: string, others: seq<string>, pair: string, tail: string)
    requires '?' !in path && '#' !in path
    requires forall i :: 0 <= i < |others| ==> '#' !in others[i]
    requires '#' !in pair
    requires tail == [] || tail[0] == '&' || tail[0] == '#'
    ensures QueryOf(path + "?" + Leading(others) + pair + tail) == Leading(others) + pair + UpToHash(tail)
  {
    var front := Leading(others) + pair;
    assert path + "?" + Leading(others) + pair + tail == path + "?" + (front + tail);
    LeadingFree(others, '#');
    QueryOfAfterPath(path, front + tail);
    UpToHashKeeps(front, tail);
  }

  /** Those pairs split into the other pairs, then `pair`, then the rest. */
  lemma SplitPairs(others: seq<string>, pair: string, tail: string)
    requires forall i :: 0 <= i < |others| ==> '&' !in others[i]
    requires '&' !in pair && '#' !in pair
    requires tail == [] || tail[0] == '&' || tail[0] == '#'
    ensures SplitOn(Leading(others) + pair + UpToHash(tail), '&')
      == others + SplitOn(pair + UpToHash(tail), '&')
    ensures SplitOn(pair + UpToHash(tail), '&')[0] == pair
  {
    var u := UpToHash(tail);
    assert Leading(others) + pair + u == Leading(others) + (pair + u);
    SplitLeading(others, pair + u);
    assert u == [] || u[0] == '&' by {
      if u != [] {
        assert tail[0] == u[0];
      }
    }
    SplitOnFirst(pair, u, '&');
  }

  /** Only re-associates a concatenation. */
  lemma Regroup(front: string, name: string, value: string, tail: string)
    ensures front + name + "=" + value + tail == front + (name + "=" + value) + tail
  {
  }

  /** `name=value` is read back as the undecoded text `value` when every
      pair before it has another name, whatever parameters follow it. Names
      free of '%' compare the same with or without percent-decoding; a value
      free of '%' is also what `get` returns after decoding. */
  lemma QueryParamRoundTrip(path: string, others: seq<string>, name: string, value: string, tail: string)
    requires '?' !in path && '#' !in path
    requires forall i :: 0 <= i < |others| ==>
      '&' !in others[i] && '#' !in others[i] && '%' !in others[i] && !Names(others[i], name)
    requires name != "" && '=' !in name && '&' !in name && '#' !in name && '+' !in name && '%' !in name
    requires '&' !in value && '#' !in value && '+' !in value
    requires tail == [] || tail[0] == '&' || tail[0] == '#'
    ensures QueryParam(path + "?" + Leading(others) + name + "=" + value + tail, name) == Some(value)
  {
    var pair := name + "=" + value;
    var target := path + "?" + Leading(others) + name + "=" + value + tail;
    var rest := SplitOn(pair + UpToHash(tail), '&');
    assert SplitOn(QueryOf(target), '&') == others + rest && rest[0] == pair by {
      Regroup(path + "?" + Leading(others), name, value, tail);
      QueryAfterPairs(path, others, pair, tail);
      SplitPairs(others, pair, tail);
    }
    assert FirstValue(rest, name) == Some(value) by {
      SplitAtFirstEquals(name, value);
      PlusToSpaceKeeps(name);
      PlusToSpaceKeeps(value);
      assert Names(rest[0], name);
    }
    FirstValueSkips(others, rest, name);
  }

  /** A target without '?' carries no token. */
  lemma {:induction false} NoQueryNoToken(target: string)
    requires '?' !in target
    ensures QueryOf(target) == ""
    ensures QueryToken(target) == None
    decreases |target|
  {
    if target != [] && target[0] != '#' {
      NoQueryNoToken(target[1..]);
    }
    assert SplitOn("", '&') == [""];
  }

  /** The state of the single promise `waitForToken` returns. */
  datatype Handshake = Waiting | Resolved(token: string) | Failed(reason: string)

  /** A promise settles once: later `resolve`/`reject` calls change nothing. */
  function SettleOnce(current: Handshake, next: Handshake): (r: Handshake)
    requires next != Waiting
    ensures r != Waiting
    ensures current == Waiting ==> r == next
    ensures current != Waiting ==> r == current
  {
    if current == Waiting then next else current
  }

  const FailureText := "\U{274C} Authentication failed"

  /** A response body: plain text, or the HTML "Login Successful" page,
      whose markup is not modelled. */
  datatype Page = Text(body: string) | ConfirmationPage

  /** What the request handler does, in order. */
  datatype Step =
    | SetHeader(name: string, value: string)
    | End(page: Page)
    | CloseListener
    | Reject(reason: string)
    | Resolve(token: string)

  /** The steps the handler takes for one request target: the response is
      ended, then the listener closed, then the promise settled, once, as
      the last step: rejected exactly when the token is absent, otherwise
      resolved with the non-empty token of the query. */
  function HandlerSteps(target: string): (steps: seq<Step>)
    ensures |steps| >= 3
    ensures steps[|steps| - 3].End? && steps[|steps| - 2] == CloseListener
    ensures forall i :: 0 <= i < |steps| - 1 ==> !steps[i].Reject? && !steps[i].Resolve?
    ensures steps[|steps| - 1].Reject? <==> Absent(QueryToken(target))
    ensures !Absent(QueryToken(target)) ==> steps[|steps| - 1] == Resolve(QueryToken(target).value)
    ensures steps[|steps| - 1].Resolve? ==>
      steps[|steps| - 1].token != "" && QueryToken(target) == Some(steps[|steps| - 1].token)
  {
    var token := QueryToken(target);
    if Absent(token) then [End(Text(FailureText)), CloseListener, Reject(NoToken)]
    else [SetHeader("Content-Type", "text/html"), SetHeader("Content-Type", "text/html"),
          End(ConfirmationPage), CloseListener, Resolve(token.value)]
  }

  /** A request reaching the listener: its target, and whether
      `new URL(target, "http://localhost:9900")` accepts it. The URL
      parser's host and port rules are not modelled, so its verdict is an
      input; it rejects targets such as `//a:99999` or `//[`. */
  datatype Incoming = Incoming(target: string, accepted: bool)

  /** The HTTP server created by `waitForToken` together with the promise
      its handler settles. */
  class CallbackListener {
    const port: int
    var listening: bool
    var state: Handshake
    var steps: seq<Step>

    /** `server.listen(9900)`. */
    constructor Listen()
      ensures port == ListenPort && listening && state == Waiting && steps == []
    {
      port := ListenPort;
      listening := true;
      state := Waiting;
      steps := [];
    }

    /** The request handler. Closing the server stops new connections only,
        so the handler does not require the listener to be open; a second
        request finds the promise already settled. When `new URL` rejects
        the target, its TypeError leaves the handler before any step: the
        listener stays open and the promise pending. */
    method HandleRequest(request: Incoming)
      modifies this
      ensures !request.accepted ==>
        listening == old(listening) && state == old(state) && steps == old(steps)
      ensures request.accepted ==> !listening
      ensures request.accepted ==> steps == old(steps) + HandlerSteps(request.target)
      ensures request.accepted && Absent(QueryToken(request.target)) ==>
        state == SettleOnce(old(state), Failed(NoToken))
      ensures request.accepted && !Absent(QueryToken(request.target)) ==>
        state == SettleOnce(old(state), Resolved(QueryToken(request.target).value))
    {
      if !request.accepted {
        return;
      }
      var target := request.target;
      var token := QueryToken(target);
      if token.None? || token.value == "" {
        steps := steps + [End(Text(FailureText))];
        listening := false;
        steps := steps + [CloseListener];
        state := SettleOnce(state, Failed(NoToken));
        steps := steps + [Reject(NoToken)];
        return;
      }
      steps := steps + [SetHeader("Content-Type", "text/html")];
      steps := steps + [SetHeader("Content-Type", "text/html")];
      steps := steps + [End(ConfirmationPage)];
      listening := false;
      steps := steps + [CloseListener];
      state := SettleOnce(state, Resolved(token.value));
      steps := steps + [Resolve(token.value)];
    }
  }

  /** The first request decides the handshake: with a non-empty token it
      resolves with exactly that token, otherwise it fails with "No token";
      the listener is closed before the promise is settled. */
  lemma HandlerOrder(target: string)
    ensures var s := HandlerSteps(target);
      && CloseListener in s
      && (Absent(QueryToken(target)) ==> s[|s| - 1] == Reject(NoToken) && s[|s| - 2] == CloseListener)
      && (!Absent(QueryToken(target)) ==>
            s[|s| - 1] == Resolve(QueryToken(target).value) && s[|s| - 2] == CloseListener
            && s[0] == SetHeader("Content-Type", "text/html") && s[2] == End(ConfirmationPage))
  {
  }

  /** A callback to `/callback?token=<t>` with a non-empty token free of
      '&', '#', '+' and '%' resolves the handshake with exactly `t`. */
  lemma TokenCallbackResolves(t: string)
    requires t != "" && '&' !in t && '#' !in t && '+' !in t && '%' !in t
    ensures QueryToken("/callback?token=" + t) == Some(t)
    ensures HandlerSteps("/callback?token=" + t)[4] == Resolve(t)
  {
    var target := "/callback" + "?" + Leading([]) + "token" + "=" + t + "";
    assert QueryToken(target) == Some(t) by {
      QueryParamRoundTrip("/callback", [], "token", t, "");
    }
    assert target == "/callback?token=" + t by {
      assert "/callback?token=" == "/callback" + "?" + "token" + "=";
      RegroupToken("/callback", "?", "token", "=", t);
    }
  }

  /** Only re-associates a concatenation. */
  lemma RegroupToken(p: string, q: string, n: string, e: string, v: string)
    ensures p + q + [] + n + e + v + [] == (p + q + n + e) + v
  {
  }

  /** The token need not be the first parameter: after `state=<x>` it is
      still found. */
  lemma TokenAfterOtherParameter(x: string, t: string)
    requires '&' !in x && '#' !in x && '%' !in x
    requires t != "" && '&' !in t && '#' !in t && '+' !in t && '%' !in t
    ensures QueryToken("/callback?state=" + x + "&token=" + t) == Some(t)
  {
    var other := "state" + "=" + x;
    var target := "/callback" + "?" + Leading([other]) + "token" + "=" + t + "";
    assert QueryParam(target, "token") == Some(t) by {
      assert !Names(other, "token") by {
        SplitAtFirstEquals("state", x);
        PlusToSpaceKeeps("state");
      }
      QueryParamRoundTrip("/callback", [other], "token", t, "");
    }
    assert target == "/callback?state=" + x + "&token=" + t by {
      assert Leading([other]) == other + "&" + Leading([]);
      assert "/callback?state=" == "/callback" + "?" + "state" + "=";
      assert "&token=" == "&" + "token" + "=";
      RegroupPairs("/callback", "?", "state", "=", x, "&", "token", t);
    }
  }

  /** Only re-associates a concatenation. */
  lemma RegroupPairs(p: string, q: string, n1: string, e: string, v1: string, a: string, n2: string, v2: string)
    ensures p + q + (n1 + e + v1 + a + []) + n2 + e + v2 + []
      == (p + q + n1 + e) + v1 + (a + n2 + e) + v2
  {
  }

  /** `?token=` with nothing after it counts as no token. */
  lemma EmptyTokenFails()
    ensures QueryToken("/callback?token=") == Some("")
    ensures Absent(QueryToken("/callback?token="))
  {
    QueryParamRoundTrip("/callback", [], "token", "", "");
    assert "/callback" + "?" + Leading([]) + "token" + "=" + "" + "" == "/callback?token=";
  }
}
