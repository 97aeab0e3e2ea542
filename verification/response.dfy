/** The response generator: it builds the outgoing content list from the
    history, augments its last element with web-search results when the
    trigger fires, and hands the list to the language model. The two network
    calls are parameters: `search` maps a query to the search provider's
    outcome, `model` maps a content list to the model provider's outcome
    (the fixed system instruction, model name and generation settings are
    part of that provider). */
module Response {
  import opened Options
  import opened Text
  import opened Conversation
  import opened Trigger

  /** What the search provider returned. `nonEmpty` is the truthiness of the
      web-results collection, `serialized` its text form; `SearchErr`
      stands for any exception the search raised. */
  datatype SearchOutcome =
    | SearchOk(nonEmpty: bool, serialized: string)
    | SearchErr(message: string)

  /** What the language-model provider returned: its text, or the
      exception it raised. */
  datatype ModelOutcome = Reply(text: string) | Failure(message: string)

  /** The request sent to the language model, with the search query issued
      on the way (if any) and the warning shown to the user (if any). */
  datatype Request = Request(contents: seq<string>, query: Option<string>, warning: Option<string>)

  /** What the generator hands back to the session: the model's outcome and
      the search warning raised along the way. */
  datatype Response = Response(outcome: ModelOutcome, warning: Option<string>)

  const SearchDelimiter: string := "\n\nHere are some relevant web search results:\n"

  const SearchWarningPrefix: string := "Web search failed: "

  /** The outcome carries results that get merged into the request. */
  predicate Augments(outcome: SearchOutcome) {
    outcome.SearchOk? && outcome.nonEmpty
  }

  /** Merges search results into the last element of `contents`. Only a
      successful, non-empty search changes anything, and then only the last
      element, which gains the delimiter and the serialized results. */
  function Augment(contents: seq<string>, outcome: SearchOutcome): (r: seq<string>)
    requires Augments(outcome) ==> |contents| > 0
    ensures |r| == |contents|
    ensures forall i :: 0 <= i < |contents| - 1 ==> r[i] == contents[i]
    ensures Augments(outcome) ==>
              r[|r| - 1] == contents[|contents| - 1] + SearchDelimiter + outcome.serialized
    ensures !Augments(outcome) ==> r == contents
  {
    if Augments(outcome) then
      contents[..|contents| - 1] + [contents[|contents| - 1] + SearchDelimiter + outcome.serialized]
    else
      contents
  }

  /** The warning shown when the search raised; a search that returned,
      even with nothing, shows none. */
  function SearchWarning(outcome: SearchOutcome): (w: Option<string>)
    ensures w.Some? <==> outcome.SearchErr?
    ensures outcome.SearchErr? ==> w.value == SearchWarningPrefix + outcome.message
  {
    match outcome
    case SearchErr(message) => Some(SearchWarningPrefix + message)
    case SearchOk(_, _) => None
  }

  /** A triggering message can only come from a user turn, so a search is
      only ever run on a non-empty history. */
  lemma TriggerImpliesUserTurn(h: History)
    ensures ShouldSearch(LastUserMessage(h)) ==> HasUserTurn(h) && |h| > 0
  {
    if ShouldSearch(LastUserMessage(h)) && !HasUserTurn(h) {
      assert LastUserMessage(h) == "";
      EmptyNeverTriggers();
      assert false;
    }
  }

  /** Builds the outgoing request: one content string per turn, in order;
      when the latest user message triggers, the search is queried with that
      message exactly as typed, and its outcome decides the last element and
      the warning. */
  function BuildRequest(h: History, search: string -> SearchOutcome): (req: Request)
    ensures |req.contents| == |h|
    ensures forall i :: 0 <= i < |h| - 1 ==> req.contents[i] == h[i].content
    ensures req.query.Some? <==> ShouldSearch(LastUserMessage(h))
    ensures req.query.Some? ==> req.query.value == LastUserMessage(h)
    ensures req.query.None? ==> req.contents == Contents(h) && req.warning.None?
    ensures req.query.Some? && !Augments(search(req.query.value)) ==> req.contents == Contents(h)
    ensures req.query.Some? && Augments(search(req.query.value)) ==>
              req.contents[|h| - 1] == h[|h| - 1].content + SearchDelimiter + search(req.query.value).serialized
    ensures req.warning.Some? <==> req.query.Some? && search(req.query.value).SearchErr?
  {
    var last := LastUserMessage(h);
    var base := Contents(h);
    if ShouldSearch(last) then
      TriggerImpliesUserTurn(h);
      var outcome := search(last);
      Request(Augment(base, outcome), Some(last), SearchWarning(outcome))
    else
      Request(base, None, None)
  }

  /** Calls the model once with the built request (characterised by
      `BuildRequest`) and passes its outcome back unchanged; a search
      failure becomes a warning, never an error. */
  function GenerateResponse(h: History, search: string -> SearchOutcome, model: seq<string> -> ModelOutcome): (r: Response)
    ensures r.outcome == model(BuildRequest(h, search).contents)
    ensures r.warning.Some? <==> ShouldSearch(LastUserMessage(h)) && search(LastUserMessage(h)).SearchErr?
    ensures r.warning.Some? ==> r.warning.value == SearchWarningPrefix + search(LastUserMessage(h)).message
    ensures r.warning.Some? ==> r.outcome == model(Contents(h))
    ensures !ShouldSearch(LastUserMessage(h)) ==> r.outcome == model(Contents(h)) && r.warning.None?
  {
    var req := BuildRequest(h, search);
    Response(model(req.contents), req.warning)
  }

  /** Building the request never depends on the roles: two histories with
      the same contents and the same latest user message yield the same
      request. */
  lemma RequestIgnoresRoles(h: History, h': History, search: string -> SearchOutcome)
    requires Contents(h) == Contents(h')
    requires LastUserMessage(h) == LastUserMessage(h')
    ensures BuildRequest(h, search) == BuildRequest(h', search)
  {
  }

  /** The element that gets augmented is the last turn of the history, which
      need not be the user turn that triggered the search: here the trigger
      comes from the user's turn and the results land on the assistant's. */
  lemma AugmentsLastTurnNotLastUserTurn()
    ensures
      var h := [Turn(User, "find x"), Turn(Assistant, "ok")];
      var req := BuildRequest(h, q => SearchOk(true, "R"));
      && req.query == Some("find x")
      && req.contents == ["find x", "ok" + SearchDelimiter + "R"]
  {
    var h := [Turn(User, "find x"), Turn(Assistant, "ok")];
    assert IsLastUserIndex(h, 0);
    assert Lower("find x")[..4] == "find";
    assert OccursAt(SearchIndicators[5], Lower("find x"), 0);
  }

  /** The end-to-end example: a single "Tell me about AUM library" turn
      queries the search with that text and, when results come back, the
      only content element ends with the delimiter and the results. */
  lemma TellMeAboutExample(results: string)
    ensures
      var h := [Turn(User, "Tell me about AUM library")];
      var req := BuildRequest(h, q => SearchOk(true, results));
      && req.query == Some("Tell me about AUM library")
      && req.contents == ["Tell me about AUM library" + SearchDelimiter + results]
      && req.warning == None
  {
    var h := [Turn(User, "Tell me about AUM library")];
    assert IsLastUserIndex(h, 0);
    var l := Lower(h[0].content);
    assert l[..13] == "tell me about";
    assert OccursAt(SearchIndicators[3], l, 0);
  }

}
