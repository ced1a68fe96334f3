/** The stand-in generator the `commit` command calls (src/utils/ai.js): it
    ignores the diff and always offers the same three messages. */
module MockAi {
  import opened JsValue
  import opened Candidates

  const MockMessages: seq<string> := [
    "feat: add new feature for user profile",
    "fix: resolve bug in login handler",
    "chore: update dependencies"
  ]

  /** `generateCommitMessages(diff)` of the mock. */
  function GenerateMock(diff: string): (r: seq<Candidate>)
    ensures |r| == |MockMessages| == 3
    ensures forall i :: 0 <= i < |r| ==> r[i] == Candidate(i + 1, Str(MockMessages[i]))
    ensures r[0].message == Str("feat: add new feature for user profile")
    ensures r[1].message == Str("fix: resolve bug in login handler")
    ensures r[2].message == Str("chore: update dependencies")
    ensures forall i, j :: 0 <= i < j < |r| ==> r[i].id < r[j].id
  {
    Numbered([Str(MockMessages[0]), Str(MockMessages[1]), Str(MockMessages[2])])
  }

  /** The ids are exactly 1, 2, 3, and the reply does not depend on the
      diff. */
  lemma MockIdsAndIndependence(d1: string, d2: string)
    ensures [GenerateMock(d1)[0].id, GenerateMock(d1)[1].id, GenerateMock(d1)[2].id] == [1, 2, 3]
    ensures GenerateMock(d1) == GenerateMock(d2)
  {
  }
}
