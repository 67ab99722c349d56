/** The chat escalation decision of the `/chat` handler (`send_message`):
    the generated reply is shown to the client only when it contains none of
    the fallback phrases and is at least five characters long once white
    space is stripped; otherwise it is replaced by a fixed hand-off notice
    and the reply is flagged as needing a human. */
module Escalation {
  import opened PyStr

  /** The low-confidence phrases, matched case-sensitively as substrings. */
  const FallbackResponses: seq<string> :=
    ["I'm not sure", "I don't understand", "Sorry, I can't help with that"]

  /** The text that replaces an escalated reply (one string, written as two
      literals only so that the verifier can look at its characters). */
  const HandoffMessage: string := "I'm forwarding your question " + "to a human representative."

  /** A stripped reply shorter than this is escalated. */
  const MinReplyLength: nat := 5

  /** What `/chat` answers: `{response, human_needed}`. */
  datatype Reply = Reply(text: string, humanNeeded: bool)

  /** Some phrase of `phrases` occurs in `text`. */
  ghost predicate MentionsAny(text: string, phrases: seq<string>) {
    exists k :: 0 <= k < |phrases| && IsSubstring(phrases[k], text)
  }

  /** `any(resp in text for resp in phrases)`. */
  function AnyIn(text: string, phrases: seq<string>): (b: bool)
    ensures b <==> MentionsAny(text, phrases)
  {
    if phrases == [] then false
    else
      ContainsSpec(text, phrases[0]);
      assert forall k :: 1 <= k < |phrases| ==> phrases[1..][k - 1] == phrases[k];
      Contains(text, phrases[0]) || AnyIn(text, phrases[1..])
  }

  /** The escalation test of the `/chat` handler. */
  predicate NeedsHuman(generated: string) {
    AnyIn(generated, FallbackResponses) || |Strip(generated)| < MinReplyLength
  }

  /** The reply the client sees for the generated text `generated`. */
  function Decide(generated: string): (r: Reply)
    ensures r.humanNeeded <==>
      MentionsAny(generated, FallbackResponses) || |Strip(generated)| < MinReplyLength
    ensures r.humanNeeded ==> r.text == HandoffMessage
    ensures !r.humanNeeded ==> r.text == generated
  {
    if NeedsHuman(generated) then Reply(HandoffMessage, true)
    else Reply(generated, false)
  }

  /** No fallback phrase fits in a text shorter than the shortest of them. */
  lemma ShortTextHasNoFallback(text: string)
    requires |text| < 12
    ensures !MentionsAny(text, FallbackResponses)
  {
  }

  /** Four characters left after stripping escalate; five that are not a
      fallback phrase pass through verbatim. */
  lemma LengthBoundary()
    ensures Decide("okay") == Reply(HandoffMessage, true)
    ensures Decide(" \tokay\n ") == Reply(HandoffMessage, true)
    ensures Decide("hello") == Reply("hello", false)
  {
    StripShorter("okay");
    var padded := " \tokay\n ";
    assert padded[1..] == "\tokay\n " && padded[1..][1..] == "okay\n ";
    assert StripStart(padded) == "okay\n ";
    assert "okay\n "[..5] == "okay\n" && "okay\n"[..4] == "okay";
    assert Strip(padded) == "okay";
    ShortTextHasNoFallback("hello");
    StripUnpadded("hello");
  }

  /** The hand-off notice mentions no fallback phrase. */
  lemma HandoffHasNoFallback()
    ensures !MentionsAny(HandoffMessage, FallbackResponses)
  {
    var h := HandoffMessage;
    assert forall n :: 0 < n < |h| ==> h[n] != 'I' && h[n] != 'S';
    forall k, i | 0 <= k < |FallbackResponses| ensures !OccursAt(h, FallbackResponses[k], i) {
      var p := FallbackResponses[k];
      assert p[0] == 'I' || p[0] == 'S';
      if 0 < i && i + |p| <= |h| {
        assert h[i..i + |p|][0] != p[0];
      } else if i == 0 {
        assert h[..|p|][2] != p[2] || h[..|p|][4] != p[4];
      }
    }
  }

  /** The hand-off notice is itself a reply the policy lets through. */
  lemma HandoffPasses()
    ensures Decide(HandoffMessage) == Reply(HandoffMessage, false)
  {
    HandoffHasNoFallback();
    StripUnpadded(HandoffMessage);
  }

  /** Deciding twice changes nothing: whatever the client is shown would be
      shown unchanged, and without escalation, if it were generated again. */
  lemma DecideStable(generated: string)
    ensures Decide(Decide(generated).text) == Reply(Decide(generated).text, false)
  {
    if Decide(generated).humanNeeded {
      HandoffPasses();
    }
  }
}
