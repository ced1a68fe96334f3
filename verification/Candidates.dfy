/** The `{ id, message }` records both generators return, and the 1-based
    numbering `array.map((x, i) => ({ id: i + 1, ... }))` gives them. */
module Candidates {
  import opened JsValue

  datatype Candidate = Candidate(id: int, message: Value)

  /** Numbers `messages` in order, the first one with `first`. */
  function NumberedFrom(messages: seq<Value>, first: int): (r: seq<Candidate>)
    ensures |r| == |messages|
    ensures forall i :: 0 <= i < |r| ==> r[i].id == first + i && r[i].message == messages[i]
    decreases |messages|
  {
    if messages == [] then []
    else [Candidate(first, messages[0])] + NumberedFrom(messages[1..], first + 1)
  }

  /** The candidates for `messages`, in order, with ids 1..N. */
  function Numbered(messages: seq<Value>): (r: seq<Candidate>)
    ensures |r| == |messages|
    ensures forall i :: 0 <= i < |r| ==> r[i].id == i + 1 && r[i].message == messages[i]
    ensures forall i, j :: 0 <= i < j < |r| ==> r[i].id < r[j].id
  {
    NumberedFrom(messages, 1)
  }

  /** The messages of a candidate list, in order. */
  function Messages(cs: seq<Candidate>): seq<Value>
    decreases |cs|
  {
    if cs == [] then [] else [cs[0].message] + Messages(cs[1..])
  }

  /** Numbering loses nothing and reorders nothing: the messages come back
      exactly as given. */
  lemma {:induction false} MessagesOfNumberedFrom(messages: seq<Value>, first: int)
    ensures Messages(NumberedFrom(messages, first)) == messages
    decreases |messages|
  {
    if messages != [] {
      MessagesOfNumberedFrom(messages[1..], first + 1);
      assert NumberedFrom(messages, first)[1..] == NumberedFrom(messages[1..], first + 1);
    }
  }

  lemma MessagesOfNumbered(messages: seq<Value>)
    ensures Messages(Numbered(messages)) == messages
  {
    MessagesOfNumberedFrom(messages, 1);
  }
}
