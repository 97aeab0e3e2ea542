/** The session's conversation history and the two read-only views the
    response generator takes of it: the text of the most recent user turn,
    and the list of turn contents sent to the language model. */
module Conversation {
  import opened Options

  datatype Role = User | Assistant

  /** One message of the conversation, tagged with who wrote it. */
  datatype Turn = Turn(role: Role, content: string)

  /** Turns in chronological order; the last element is the latest turn. */
  type History = seq<Turn>

  predicate HasUserTurn(h: History) {
    exists i :: 0 <= i < |h| && h[i].role == User
  }

  /** `k` is the position of the latest user turn of `h`. */
  predicate IsLastUserIndex(h: History, k: int) {
    && 0 <= k < |h|
    && h[k].role == User
    && forall j :: k < j < |h| ==> h[j].role != User
  }

  /** At most one position is the latest user turn. */
  lemma LastUserIndexUnique(h: History, k: int, k': int)
    requires IsLastUserIndex(h, k) && IsLastUserIndex(h, k')
    ensures k == k'
  {
  }

  /** Scans the history from its end for the first turn written by the user. */
  function LastUserIndex(h: History): (r: Option<nat>)
    ensures r.None? <==> !HasUserTurn(h)
    ensures r.Some? ==> IsLastUserIndex(h, r.value)
  {
    if |h| == 0 then
      None
    else if h[|h| - 1].role == User then
      Some(|h| - 1)
    else
      var r := LastUserIndex(h[..|h| - 1]);
      assert HasUserTurn(h[..|h| - 1]) ==> HasUserTurn(h);
      assert HasUserTurn(h) ==> HasUserTurn(h[..|h| - 1]) by {
        if HasUserTurn(h) {
          var i :| 0 <= i < |h| && h[i].role == User;
          assert h[..|h| - 1][i] == h[i];
        }
      }
      r
  }

  /** The content of the latest user turn, or "" when the user has said
      nothing yet (in particular when the history is empty). */
  function LastUserMessage(h: History): (r: string)
    ensures forall k :: IsLastUserIndex(h, k) ==> r == h[k].content
    ensures HasUserTurn(h) ==> exists k :: IsLastUserIndex(h, k)
    ensures !HasUserTurn(h) ==> r == ""
  {
    match LastUserIndex(h)
    case None => ""
    case Some(k) =>
      assert forall k' :: IsLastUserIndex(h, k') ==> k' == k by {
        forall k' | IsLastUserIndex(h, k') ensures k' == k {
          LastUserIndexUnique(h, k, k');
        }
      }
      h[k].content
  }

  /** The contents of the turns, in order, with the roles dropped. */
  function Contents(h: History): (r: seq<string>)
    ensures |r| == |h|
    ensures forall i :: 0 <= i < |h| ==> r[i] == h[i].content
  {
    if |h| == 0 then [] else Contents(h[..|h| - 1]) + [h[|h| - 1].content]
  }

  /** Appending a user turn makes it the latest user turn. */
  lemma LastUserMessageAfterUserTurn(h: History, prompt: string)
    ensures LastUserMessage(h + [Turn(User, prompt)]) == prompt
  {
  }

  /** Appending an assistant turn leaves the latest user message alone. */
  lemma LastUserMessageAfterAssistantTurn(h: History, reply: string)
    ensures LastUserMessage(h + [Turn(Assistant, reply)]) == LastUserMessage(h)
  {
  }

  /** Projecting a longer history extends the projection by one entry. */
  lemma ContentsAppend(h: History, t: Turn)
    ensures Contents(h + [t]) == Contents(h) + [t.content]
  {
  }

}
