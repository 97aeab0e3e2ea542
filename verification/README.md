# AUM chatbot: message assembly and search augmentation

This project models the non-UI core of the AUM chatbot, a Streamlit front-end
that forwards a chat conversation to a Gemini language model and sometimes
enriches the latest question with Brave web-search results. The model covers
the following.

- **Latest user message.** `get_gemini_response` scans the history from its
  end for the most recent turn whose role is `user`. It uses `""` when there
  is none.
- **Search trigger.** The message is lower-cased and tested against six fixed
  phrases (`what is`, `who is`, `how to`, `tell me about`, `search for`,
  `find`) by plain substring containment. There are no word boundaries.
- **Content list.** The history is projected to its content strings, in
  order, with the roles dropped.
- **Augmentation.** When the trigger fires and the search returns non-empty
  results, the last element of that list gains
  `"\n\nHere are some relevant web search results:\n"` and the serialized
  results. An empty result changes nothing. A search exception only raises a
  warning.
- **Session step.** `main` acts only on a non-empty chat input. It appends
  the user's prompt to the stored history. It appends the assistant's reply
  only when the model call succeeded. An empty input changes nothing and
  calls no provider.

The two network calls are function-typed parameters:

- `search: string -> SearchOutcome` stands for `query_brave`. Its outcome is
  `SearchOk(nonEmpty, serialized)` or `SearchErr(message)`. `nonEmpty` is the
  truthiness of the returned web-results collection, and `serialized` is its
  `str(...)` form.
- `model: seq<string> -> ModelOutcome` stands for
  `client.models.generate_content`. Its outcome is `Reply(text)` or
  `Failure(message)`. The fixed system instruction, the model name and the
  generation settings belong to this provider.

With these two parameters, the whole pipeline is a set of pure functions.

Modules:

- `Options`: the `Option` datatype.
- `Text`: ASCII lower-casing, and the substring predicate with its decision
  procedure (Python's `p in s`).
- `Conversation`: `Role`, `Turn`, `History`, the latest-user-message lookup
  and the content projection.
- `Trigger`: the indicator phrases and `ShouldSearch`.
- `Response`: augmentation, request building and the model call.
- `Session`: one submission of `main`.

The code augments the last element of the content list (app.py:166). That
is the last turn of the history, whatever its role, and it need not be the
latest user turn. `AugmentsLastTurnNotLastUserTurn` exhibits this. In the
app's own flow the two coincide, because `main` appends the prompt just
before the call (`SubmitSearchesPrompt`).

## Model

| member | source | states |
|---|---|---|
| Text.Lower | app.py:153 | lower-casing keeps the length, leaves no capital letter, and keeps every non-capital character in place (ASCII only) |
| Text.Contains | app.py:153 | `indicator in text` holds exactly when the indicator occurs at some position of the text, the empty string occurring everywhere |
| Trigger.AnyOccurs | app.py:153 | `any(...)` over a phrase list holds exactly when some phrase of the list is a substring of the text |
| Trigger.ShouldSearch | app.py:152-153 | search triggers exactly when one of the six fixed phrases is a substring of the lower-cased message |
| Trigger.EmptyNeverTriggers | app.py:149-153 | the empty message (no user turn) never triggers a search |
| Trigger.TriggerIgnoresCase | app.py:153 | a message and its lower-cased form always get the same decision |
| Trigger.TriggerInAnyContext | app.py:153 | a triggering message still triggers with any text added before or after it (any position, no word boundaries) |
| Trigger.WhatIsTriggers | app.py:152-153 | "What is AUM?" triggers despite its capital letters |
| Trigger.FindMatchesInsideWords | app.py:152-153 | "find" matches inside "refinding", so that word triggers |
| Trigger.ThankYouDoesNotTrigger | app.py:152-153 | "Thank you" contains none of the phrases and does not trigger |
| Conversation.LastUserIndex | app.py:149 | the reverse scan finds a position iff the history has a user turn, and that position is the highest one holding a user turn |
| Conversation.LastUserMessage | app.py:149 | the result is the content of the highest-index user turn, or "" when there is no user turn (including the empty history) |
| Conversation.LastUserIndexUnique | app.py:149 | the highest user-turn position is unique, so the latest user message is well defined |
| Conversation.Contents | app.py:156-158 | the content list has one entry per turn, in order, each the turn's content with the role dropped |
| Conversation.ContentsAppend | app.py:156-158 | projecting a history with one more turn appends that turn's content to the projection |
| Conversation.LastUserMessageAfterUserTurn | app.py:149 | after a user turn is appended, the latest user message is that turn's content |
| Conversation.LastUserMessageAfterAssistantTurn | app.py:149 | appending an assistant turn does not change the latest user message |
| Response.Augment | app.py:164-166 | on a successful non-empty search exactly the last element changes, becoming old last + delimiter + serialized results; otherwise the list is returned unchanged |
| Response.SearchWarning | app.py:167-168 | a warning "Web search failed: " + message is raised exactly when the search raised |
| Response.TriggerImpliesUserTurn | app.py:149-166 | a trigger implies a user turn exists, hence the history and the content list are non-empty and the last-element update is safe |
| Response.BuildRequest | app.py:149-168 | one content per turn, all but the last unchanged; the search is queried iff the trigger fires, with the message as typed (not lower-cased); only a non-empty success changes the last element; on no trigger, an empty result or an error the list is the plain projection; a warning appears iff the search raised |
| Response.GenerateResponse | app.py:161-179 | the model is called once on the built contents and its reply or failure is handed back unchanged; a warning "Web search failed: " + message appears iff the latest user message triggered and the search raised, and then, as with no trigger, the model is called on the plain projection |
| Response.RequestIgnoresRoles | app.py:156-158 | the request depends on the roles only through the latest user message: the content list carries no roles |
| Response.AugmentsLastTurnNotLastUserTurn | app.py:156-166 | with history [user "find x", assistant "ok"] the query is "find x" but the results are appended to "ok", the last turn |
| Response.TellMeAboutExample | app.py:149-166 | a single "Tell me about AUM library" turn queries that exact text and, with results, sends that text + delimiter + results as the only content |
| Session.Submit | app.py:202-219 | an empty input stores nothing and calls no provider; otherwise the stored history becomes old history + user prompt, plus the assistant reply only when the model call succeeded; the model sees the history with the prompt; a warning appears iff the prompt triggered and the search raised |
| Session.SubmitSearchesPrompt | app.py:204-215 | in a submission the search runs iff the prompt triggers, with the prompt as query, and the augmented element is the prompt itself; earlier elements are the stored contents |
| Session.SubmitStoresPlainTurns | app.py:202-219 | the stored history's contents are old contents + prompt (+ reply), or unchanged for an empty input; search results never reach the stored history |
| Session.SubmitKeepsRepliesAfterPrompts | app.py:202-219 | every assistant turn directly follows a user turn, before and after a submission; this is the invariant every sequence of submissions keeps |
| Session.SubmitAlternation | app.py:202-219 | a strictly alternating history of complete exchanges stays alternating after one submission, whether the model call succeeds or fails |
| Session.FailedSubmissionStoresPrompt | app.py:214-219 | when this submission's model call fails, whatever the provider does on other requests, the submission stores the prompt and no assistant turn |
| Session.FailuresBreakAlternation | app.py:202-219 | alternation is not a session invariant: after one failed call the next prompt is stored right after the unanswered one, whatever the second call returns, so two user turns are adjacent |

## Left out

- Streamlit rendering: titles, chat bubbles, `st.warning` and `st.error` calls. The warning text is modelled as a value and the error as the `Failure` outcome.
- Secret loading and `initialize_gemini_client`: configuration and construction of a foreign client.
- `query_brave` and `client.models.generate_content`: network calls into libraries that are not part of this model. They are abstract function parameters. Their result count 5 and raw mode, the model name, the system prompt text, temperature 0.7 and the 2048-token limit are all folded into the abstract provider.
- `str(web_results)`: Python's repr formatting is an opaque string (`serialized`), and the truthiness of the results is an opaque flag (`nonEmpty`). A missing `web` key raises inside the search, so it is one more `SearchErr`.
- Text.Lower: ASCII-only lower-casing. Python's `str.lower` also lower-cases non-ASCII letters, which are kept as is here. Only U+0130 changes length under `str.lower` (it becomes "i" followed by U+0307). Only U+0130 and U+212A (Kelvin sign, which becomes "k") have a lower-case form containing ASCII. Neither can complete a trigger phrase: no phrase contains "k", and the combining dot after "i" breaks "is" and "in". So `ShouldSearch` decides as app.py:153 does on every string, though `Lower` differs from `str.lower`.
- `st.chat_input` returns nothing or a string; both an absent and an empty input are modelled as the empty prompt, which the truthiness test skips.
- Roles are an enum `User | Assistant`. The source compares role strings with `"user"`, and in it any other role string behaves like `Assistant`.
- Determinism of the trigger (same text, same answer) holds because every member is a pure function. No lemma is needed for it.
- `response.text` being absent (for a blocked reply) is not modelled. A reply is always text.
