/** One submission of the chat session: the user's prompt is appended to the
    stored history, the response generator runs on the extended history, and
    the assistant's reply is appended only when the model call succeeded.
    The search augmentation never reaches the stored history. */
module Session {
  import opened Options
  import opened Conversation
  import opened Trigger
  import opened Response

  /** The session after one pass over the chat input, with what the user is
      shown: the model's outcome (reply or error) when a prompt was
      submitted, and any search warning. */
  datatype Step = Step(history: History, reply: Option<ModelOutcome>, warning: Option<string>)

  /** Handles the chat input. An empty input is no submission: nothing is
      stored and no provider is called. Otherwise the user turn is stored,
      the response generator is asked about the extended history, and the
      reply is stored only if the model call succeeded. */
  function Submit(h: History, prompt: string, search: string -> SearchOutcome, model: seq<string> -> ModelOutcome): (s: Step)
    ensures prompt == "" ==> s.history == h && s.reply.None? && s.warning.None?
    ensures prompt != "" ==> s.reply.Some?
    ensures s.reply.Some? ==> |s.history| == |h| + (if s.reply.value.Reply? then 2 else 1)
    ensures s.history[..|h|] == h
    ensures s.reply.Some? ==> s.history[|h|] == Turn(User, prompt)
    ensures s.reply.Some? && s.reply.value.Reply? ==> s.history[|h| + 1] == Turn(Assistant, s.reply.value.text)
    ensures s.reply.Some? ==> s.reply.value == model(BuildRequest(h + [Turn(User, prompt)], search).contents)
    ensures s.warning.Some? <==> prompt != "" && ShouldSearch(prompt) && search(prompt).SearchErr?
    ensures s.warning.Some? ==> s.warning.value == SearchWarningPrefix + search(prompt).message
  {
    if prompt == "" then
      Step(h, None, None)
    else
      var withPrompt := h + [Turn(User, prompt)];
      LastUserMessageAfterUserTurn(h, prompt);
      var response := GenerateResponse(withPrompt, search, model);
      match response.outcome
      case Reply(text) => Step(withPrompt + [Turn(Assistant, text)], Some(response.outcome), response.warning)
      case Failure(_) => Step(withPrompt, Some(response.outcome), response.warning)
  }

  /** Within a submission the search, if any, is run on the prompt just
      typed, and the results land on that prompt: the last element of the
      request is the prompt itself, augmented or not, and every earlier
      element is the stored content of its turn. */
  lemma SubmitSearchesPrompt(h: History, prompt: string, search: string -> SearchOutcome)
    ensures var req := BuildRequest(h + [Turn(User, prompt)], search);
      && (req.query.Some? <==> ShouldSearch(prompt))
      && (req.query.Some? ==> req.query.value == prompt)
      && req.contents[..|h|] == Contents(h)
      && req.contents[|h|] ==
           if ShouldSearch(prompt) && Augments(search(prompt))
           then prompt + SearchDelimiter + search(prompt).serialized
           else prompt
  {
  }

  /** Every assistant turn directly answers a user turn. */
  predicate RepliesFollowPrompts(h: History) {
    forall i :: 0 <= i < |h| && h[i].role == Assistant ==> i > 0 && h[i - 1].role == User
  }

  /** A submission keeps every assistant turn right behind a user turn,
      whether or not the model call succeeded. */
  lemma SubmitKeepsRepliesAfterPrompts(h: History, prompt: string, search: string -> SearchOutcome, model: seq<string> -> ModelOutcome)
    requires RepliesFollowPrompts(h)
    ensures RepliesFollowPrompts(Submit(h, prompt, search, model).history)
  {
    var h' := Submit(h, prompt, search, model).history;
    forall i | 0 <= i < |h'| && h'[i].role == Assistant
      ensures i > 0 && h'[i - 1].role == User
    {
      if i < |h| {
        assert h'[i] == h[i] && h'[i - 1] == h[i - 1];
      }
    }
  }

  /** The user and assistant strictly take turns, starting with the user. */
  predicate Alternates(h: History) {
    forall i :: 0 <= i < |h| ==> h[i].role == ExpectedRole(i)
  }

  /** Whose turn it is at position `i` of a strictly alternating history. */
  function ExpectedRole(i: nat): Role {
    if i % 2 == 0 then User else Assistant
  }

  /** After a complete exchange it is the user's turn, then the assistant's. */
  lemma ExpectedRoleAfterExchange(n: nat)
    requires n % 2 == 0
    ensures ExpectedRole(n) == User && ExpectedRole(n + 1) == Assistant
  {
  }

  /** Appending the turn whose role is due keeps a history alternating. */
  lemma AlternatesAppend(h: History, t: Turn)
    requires Alternates(h) && t.role == ExpectedRole(|h|)
    ensures Alternates(h + [t])
  {
  }

  /** Starting from a strictly alternating history that ends on a reply,
      one submission keeps it alternating, whether or not the model call
      succeeded (on failure it ends on the unanswered prompt). This does not
      chain: see `FailuresBreakAlternation`. */
  lemma SubmitAlternation(h: History, prompt: string, search: string -> SearchOutcome, model: seq<string> -> ModelOutcome)
    requires Alternates(h) && |h| % 2 == 0
    ensures Alternates(Submit(h, prompt, search, model).history)
  {
    var s := Submit(h, prompt, search, model);
    if prompt != "" {
      var withPrompt := h + [Turn(User, prompt)];
      ExpectedRoleAfterExchange(|h|);
      AlternatesAppend(h, Turn(User, prompt));
      if s.reply.value.Reply? {
        AlternatesAppend(withPrompt, Turn(Assistant, s.reply.value.text));
        assert s.history == withPrompt + [Turn(Assistant, s.reply.value.text)];
      } else {
        assert s.history == withPrompt;
      }
    }
  }

  /** The stored history holds only what was typed and what was replied:
      its contents are the old contents, the prompt, and the reply when
      there is one, never the search results. */
  lemma SubmitStoresPlainTurns(h: History, prompt: string, search: string -> SearchOutcome, model: seq<string> -> ModelOutcome)
    ensures var s := Submit(h, prompt, search, model);
      Contents(s.history) ==
        if s.reply.None? then Contents(h)
        else Contents(h) + [prompt] + (if s.reply.value.Reply? then [s.reply.value.text] else [])
  {
  }

  /** When this submission's model call fails, whatever the provider does
      on other requests, the prompt is stored alone. */
  lemma FailedSubmissionStoresPrompt(h: History, prompt: string, search: string -> SearchOutcome, model: seq<string> -> ModelOutcome)
    requires prompt != ""
    requires model(BuildRequest(h + [Turn(User, prompt)], search).contents).Failure?
    ensures Submit(h, prompt, search, model).history == h + [Turn(User, prompt)]
  {
  }

  /** Two adjacent turns with the same role rule out alternation. */
  lemma SameRoleNeighboursNotAlternating(h: History, i: nat)
    requires i + 1 < |h| && h[i].role == h[i + 1].role
    ensures !Alternates(h)
  {
    assert ExpectedRole(i) != ExpectedRole(i + 1);
  }

  /** Alternation is not an invariant of the session: after one failed
      model call the prompt stays unanswered, so the next prompt is stored
      right after it, whatever that second call returns, and two user turns
      are adjacent, which no alternating history has. `RepliesFollowPrompts`
      is what every sequence of submissions keeps. */
  lemma FailuresBreakAlternation(h: History, p1: string, p2: string, search: string -> SearchOutcome, model: seq<string> -> ModelOutcome)
    requires p1 != "" && p2 != ""
    requires model(BuildRequest(h + [Turn(User, p1)], search).contents).Failure?
    ensures var h2 := Submit(Submit(h, p1, search, model).history, p2, search, model).history;
      && h2[..|h|] == h
      && h2[|h|] == Turn(User, p1)
      && h2[|h| + 1] == Turn(User, p2)
      && !Alternates(h2)
  {
    var h1 := h + [Turn(User, p1)];
    FailedSubmissionStoresPrompt(h, p1, search, model);
    var s2 := Submit(h1, p2, search, model);
    assert s2.history[..|h1|] == h1;
    assert s2.history[|h|] == h1[|h|];
    SameRoleNeighboursNotAlternating(s2.history, |h|);
  }

}
