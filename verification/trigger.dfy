/** The heuristic that decides whether the latest user message is worth a
    web search: a case-insensitive plain substring match against six fixed
    phrases, with no notion of word boundaries. */
module Trigger {
  import opened Text

  /** The trigger phrases, all already lower-case. */
  const SearchIndicators: seq<string> :=
    ["what is", "who is", "how to", "tell me about", "search for", "find"]

  /** Some phrase of `ps` is a piece of `s`. */
  function AnyOccurs(ps: seq<string>, s: string): (r: bool)
    ensures r <==> exists k :: 0 <= k < |ps| && IsSubstring(ps[k], s)
  {
    if |ps| == 0 then
      false
    else
      var rest := AnyOccurs(ps[1..], s);
      assert rest <==> exists k :: 1 <= k < |ps| && IsSubstring(ps[k], s) by {
        assert forall k :: 1 <= k < |ps| ==> ps[k] == ps[1..][k - 1];
        assert forall k :: 0 <= k < |ps| - 1 ==> ps[1..][k] == ps[k + 1];
      }
      Contains(s, ps[0]) || rest
  }

  /** Whether the text, lower-cased, contains one of the trigger phrases. */
  function ShouldSearch(text: string): (r: bool)
    ensures r <==> exists k :: 0 <= k < |SearchIndicators| && IsSubstring(SearchIndicators[k], Lower(text))
  {
    AnyOccurs(SearchIndicators, Lower(text))
  }

  /** A message with nothing in it never triggers a search, since no
      trigger phrase is empty. */
  lemma EmptyNeverTriggers()
    ensures !ShouldSearch("")
  {
  }

  /** The decision ignores letter case: the message and its lower-cased
      form always get the same answer. */
  lemma TriggerIgnoresCase(text: string)
    ensures ShouldSearch(Lower(text)) == ShouldSearch(text)
  {
    LowerIdempotent(text);
  }

  /** A phrase matches at any position: a triggering message still triggers
      whatever text surrounds it. */
  lemma TriggerInAnyContext(text: string, pre: string, post: string)
    requires ShouldSearch(text)
    ensures ShouldSearch(pre + text + post)
  {
    var k :| 0 <= k < |SearchIndicators| && IsSubstring(SearchIndicators[k], Lower(text));
    LowerConcat(pre, text);
    LowerConcat(pre + text, post);
    SubstringInContext(SearchIndicators[k], Lower(text), Lower(pre), Lower(post));
  }

  /** "What is AUM?" triggers: its lower-cased form starts with "what is". */
  lemma WhatIsTriggers()
    ensures ShouldSearch("What is AUM?")
  {
    var l := Lower("What is AUM?");
    assert l[..7] == "what is";
    assert OccursAt(SearchIndicators[0], l, 0);
  }

  /** No word boundaries: "find" matches inside "refinding". */
  lemma FindMatchesInsideWords()
    ensures ShouldSearch("refinding")
  {
    var l := Lower("refinding");
    assert l == "refinding";
    assert l[2..6] == "find";
    assert OccursAt(SearchIndicators[5], l, 2);
  }

  /** "Thank you" contains none of the phrases and does not trigger. */
  lemma ThankYouDoesNotTrigger()
    ensures !ShouldSearch("Thank you")
  {
    var l := Lower("Thank you");
    assert l == "thank you";
    // each phrase holds a letter that "thank you" lacks
    var missing := ['w', 'w', 'w', 'l', 's', 'f'];
    forall k | 0 <= k < |SearchIndicators|
      ensures !IsSubstring(SearchIndicators[k], l)
    {
      assert missing[k] in SearchIndicators[k];
      MissingCharNotSubstring(SearchIndicators[k], l, missing[k]);
    }
  }

}
