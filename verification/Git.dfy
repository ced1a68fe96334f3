/** The two git operations the `commit` command uses (src/utils/git.js).
    `execSync` is a parameter that maps a shell command to its outcome, and
    `process.exit(1)` is an outcome of its own. */
module Git {
  import opened Wrappers

  const DiffCommand := "git diff --cached"

  /** What `execSync` did with a command: finished with its standard
      output, or threw (non-zero exit status, git missing, ...). */
  datatype Exec = Completed(stdout: string) | Failed(message: string)

  /** What `getStagedDiff()` ends in: the diff returned, or the process
      ended with `process.exit(code)`. */
  datatype StagedDiff = Diff(text: string) | Exit(code: int)

  /** The characters `String.prototype.trim` removes: ECMAScript's
      WhiteSpace and LineTerminator. */
  predicate IsTrimmable(c: char)
  {
    var cp := c as int;
    (0x09 <= cp <= 0x0D) || cp == 0x20 || cp == 0xA0 || cp == 0x1680 ||
    (0x2000 <= cp <= 0x200A) || cp == 0x2028 || cp == 0x2029 || cp == 0x202F ||
    cp == 0x205F || cp == 0x3000 || cp == 0xFEFF
  }

  predicate Blank(s: string)
  {
    forall i :: 0 <= i < |s| ==> IsTrimmable(s[i])
  }

  /** `s` without its leading trimmable characters. */
  function TrimStart(s: string): (r: string)
    ensures |r| <= |s| && r == s[|s| - |r|..]
    ensures Blank(s[..|s| - |r|])
    ensures r == [] || !IsTrimmable(r[0])
    decreases |s|
  {
    if s != [] && IsTrimmable(s[0]) then
      var r := TrimStart(s[1..]);
      assert s[..|s| - |r|] == [s[0]] + s[1..][..|s| - 1 - |r|];
      r
    else s
  }

  /** `s` without its trailing trimmable characters. */
  function TrimEnd(s: string): (r: string)
    ensures |r| <= |s| && r == s[..|r|]
    ensures Blank(s[|r|..])
    ensures r == [] || !IsTrimmable(r[|r| - 1])
    decreases |s|
  {
    if s != [] && IsTrimmable(s[|s| - 1]) then
      var r := TrimEnd(s[..|s| - 1]);
      assert s[|r|..] == s[..|s| - 1][|r|..] + [s[|s| - 1]];
      r
    else s
  }

  /** `s.trim()`. */
  function Trim(s: string): (r: string)
    ensures r == "" || (!IsTrimmable(r[0]) && !IsTrimmable(r[|r| - 1]))
  {
    TrimEnd(TrimStart(s))
  }

  /** `!s.trim()` holds exactly when every character of `s` is trimmable. */
  lemma TrimEmptyIffBlank(s: string)
    ensures Trim(s) == "" <==> Blank(s)
  {
    var t := TrimStart(s);
    var r := TrimEnd(t);
    assert t == [] ==> s[..|s|] == s;
    assert t != [] ==> s[|s| - |t|] == t[0] && !IsTrimmable(t[0]);
    if t != [] {
      TrimEndKeepsHead(t);
    }
  }

  /** Trimming twice trims nothing more. */
  lemma TrimIdempotent(s: string)
    ensures Trim(Trim(s)) == Trim(s)
  {
    var r := Trim(s);
    assert TrimStart(r) == r;
    assert TrimEnd(r) == r;
  }

  lemma {:induction false} TrimEndKeepsHead(t: string)
    requires t != [] && !IsTrimmable(t[0])
    ensures TrimEnd(t) != []
    decreases |t|
  {
    if IsTrimmable(t[|t| - 1]) {
      assert |t| > 1;
      TrimEndKeepsHead(t[..|t| - 1]);
    }
  }

  /** `getStagedDiff()`: reads the staged diff with `git diff --cached`; a
      failed command and a diff that trims to nothing both end the process
      with status 1; otherwise the diff is returned as read, untrimmed. */
  function GetStagedDiff(exec: string -> Exec): (r: StagedDiff)
    ensures r.Exit? ==> r.code == 1
    ensures r.Diff? <==> exec(DiffCommand).Completed? && !Blank(exec(DiffCommand).stdout)
    ensures r.Diff? ==> r.text == exec(DiffCommand).stdout
  {
    match exec(DiffCommand)
    case Failed(_) => Exit(1)
    case Completed(diff) =>
      TrimEmptyIffBlank(diff);
      if Trim(diff) == "" then Exit(1) else Diff(diff)
  }

  /** The shell command `makeCommit` runs: the message is spliced between
      double quotes as it is, with nothing escaped. */
  function CommitCommand(message: string): (r: string)
    ensures |r| == |message| + 16
    ensures r[15..|r| - 1] == message && r[14] == '"' && r[|r| - 1] == '"'
  {
    "git commit -m \"" + message + "\""
  }

  const CommitPrefix := "git commit -m \""

  /** The message back out of a commit command: the inverse of
      `CommitCommand`. */
  function MessageOf(command: string): Option<string>
  {
    if |command| > |CommitPrefix| && command[..|CommitPrefix|] == CommitPrefix && command[|command| - 1] == '"'
    then Some(command[|CommitPrefix|..|command| - 1])
    else None
  }

  lemma CommitCommandRoundTrip(message: string)
    ensures MessageOf(CommitCommand(message)) == Some(message)
  {
    var c := CommitCommand(message);
    assert c == CommitPrefix + message + "\"";
    assert c[..|CommitPrefix|] == CommitPrefix;
    assert c[|CommitPrefix|..|c| - 1] == message;
  }

  /** No escaping: every double quote of the message reaches the shell
      as a bare quote, beside the two that delimit it. */
  lemma CommitCommandQuotes(message: string)
    ensures multiset(CommitCommand(message))['"'] == multiset(message)['"'] + 2
  {
    var q := "\"";
    assert CommitCommand(message) == CommitPrefix + message + q;
    assert multiset(CommitPrefix + message + q) == multiset(CommitPrefix) + multiset(message) + multiset(q);
    PrefixHasOneQuote();
  }

  lemma PrefixHasOneQuote()
    ensures multiset(CommitPrefix)['"'] == 1
  {
    var words, q := "git commit -m ", "\"";
    assert CommitPrefix == words + q;
    assert '"' !in words;
    assert multiset(words)['"'] == 0;
    assert multiset(words + q) == multiset(words) + multiset(q);
  }

  /** What `makeCommit(message)` did: the command it ran and, when that
      command threw, the error it logged instead of rethrowing. */
  datatype CommitReport = CommitReport(command: string, logged: Option<string>)

  /** `makeCommit(message)`: always returns normally. */
  function MakeCommit(message: string, exec: string -> Exec): (r: CommitReport)
    ensures MessageOf(r.command) == Some(message)
    ensures r.logged.Some? <==> exec(CommitCommand(message)).Failed?
    ensures r.logged.Some? ==> r.logged.value == exec(CommitCommand(message)).message
  {
    var command := CommitCommand(message);
    CommitCommandRoundTrip(message);
    match exec(command)
    case Completed(_) => CommitReport(command, None)
    case Failed(e) => CommitReport(command, Some(e))
  }
}
