/**
 * The part of `gen_ai_output` (api.py) that can be stated without the language
 * model: how the model's reply is cleaned of Markdown code fences and turned into
 * the three fields the request handler reads. The model call itself and
 * `json.loads` are parameters.
 */
module AiReply {
  import opened Wrappers
  import opened Strings

  const JsonFence := "```json"
  const Fence := "```"

  /** The three fields the prompt asks the model to return. */
  datatype AiOutput = AiOutput(jobDescription: string, rate: string, jobTitle: string)

  /** What came back from the chat-completion call: it raised (with the exception's
      text), it returned no choices, or the first choice's message text. */
  datatype LlmReply =
    | CallFailed(error: string)
    | NoChoice
    | Content(text: string)

  const NoResponseText := "Sorry, I couldn't generate a response."
  const CallFailedPrefix := "Error generating AI response: "

  // ---------------------------------------------------------------------
  // Fence cleanup
  // ---------------------------------------------------------------------

  /** Drop a leading "```json", or else a leading "```". */
  function StripLeadingFence(c: string): (r: string)
    ensures StartsWith(c, JsonFence) ==> c == JsonFence + r
    ensures !StartsWith(c, JsonFence) && StartsWith(c, Fence) ==> c == Fence + r
    ensures !StartsWith(c, Fence) ==> r == c
  {
    if StartsWith(c, JsonFence) then c[|JsonFence|..]
    else if StartsWith(c, Fence) then c[|Fence|..]
    else c
  }

  /** Drop a trailing "```". */
  function StripTrailingFence(c: string): (r: string)
    ensures EndsWith(c, Fence) ==> c == r + Fence
    ensures !EndsWith(c, Fence) ==> r == c
  {
    if EndsWith(c, Fence) then c[..|c| - |Fence|] else c
  }

  /** The reply text after cleanup: strip, drop one leading fence, drop one trailing
      fence, strip again. The result never has whitespace at either end. */
  function CleanReply(raw: string): (r: string)
    ensures IsStripped(r)
    ensures |r| <= |raw|
  {
    Strip(StripTrailingFence(StripLeadingFence(Strip(raw))))
  }

  /** After its leading fence (and any whitespace) the stripped reply opens a second
      "```json" fence. */
  predicate DoubleFenced(raw: string) {
    var c := Strip(raw);
    StartsWith(c, Fence) && StartsWith(TrimStart(StripLeadingFence(c)), JsonFence)
  }

  // ---------------------------------------------------------------------
  // Properties of the cleanup
  // ---------------------------------------------------------------------

  /** Whitespace around a fenced reply is stripped before the fences are looked at. */
  lemma CleanAround(w1: string, m: string, w2: string)
    requires AllSpace(w1) && AllSpace(w2) && IsStripped(m)
    ensures CleanReply(w1 + m + w2) == Strip(StripTrailingFence(StripLeadingFence(m)))
  {
    StripAround(w1, m, w2);
  }

  lemma DropsTrailingFence(body: string)
    ensures StripTrailingFence(body + Fence) == body
  {
    assert (body + Fence)[|body|..] == Fence;
    assert (body + Fence)[..|body|] == body;
  }

  /** A reply wrapped in a "```json ... ```" fence, with any whitespace around it,
      cleans to its stripped body. */
  lemma CleanJsonFenced(w1: string, body: string, w2: string)
    requires AllSpace(w1) && AllSpace(w2)
    ensures CleanReply(w1 + JsonFence + body + Fence + w2) == Strip(body)
  {
    var m := JsonFence + (body + Fence);
    assert w1 + JsonFence + body + Fence + w2 == w1 + m + w2;
    CleanAround(w1, m, w2);
    assert m[..|JsonFence|] == JsonFence;
    assert StripLeadingFence(m) == body + Fence;
    DropsTrailingFence(body);
  }

  /** The same for a plain "``` ... ```" fence, unless the body itself begins with
      "json" (then the opening is read as a "```json" fence). */
  lemma CleanPlainFenced(w1: string, body: string, w2: string)
    requires AllSpace(w1) && AllSpace(w2)
    requires !StartsWith(body, "json")
    ensures CleanReply(w1 + Fence + body + Fence + w2) == Strip(body)
  {
    var m := Fence + (body + Fence);
    assert w1 + Fence + body + Fence + w2 == w1 + m + w2;
    CleanAround(w1, m, w2);
    PlainFenceIsNotJsonFence(body);
    assert m[..|Fence|] == Fence;
    assert StripLeadingFence(m) == body + Fence;
    DropsTrailingFence(body);
  }

  lemma PlainFenceIsNotJsonFence(body: string)
    requires !StartsWith(body, "json")
    ensures !StartsWith(Fence + (body + Fence), JsonFence)
  {
    var m := Fence + (body + Fence);
    if |body| >= 4 {
      assert m[..7][3..] == body[..4];
      assert JsonFence[3..] == "json";
    } else {
      assert m[3 + |body|] == '`';
      assert JsonFence[3 + |body|] != '`';
    }
  }

  /** A reply with no fence at either end is only stripped. */
  lemma CleanUnfenced(raw: string)
    requires !StartsWith(Strip(raw), Fence) && !EndsWith(Strip(raw), Fence)
    ensures CleanReply(raw) == Strip(raw)
  {
    var c := Strip(raw);
    assert !StartsWith(c, JsonFence) by {
      if |c| >= 7 { assert c[..7][..3] == c[..3]; }
    }
    StripIdempotent(raw);
  }

  /** The cleaned reply still opens with "```json" exactly when the reply was
      double-fenced; so a reply with at most one opening fence never keeps one. */
  lemma CleanKeepsJsonFenceIff(raw: string)
    ensures StartsWith(CleanReply(raw), JsonFence) <==> DoubleFenced(raw)
  {
    var c := Strip(raw);
    CutKeepsJsonFence(StripLeadingFence(c));
    if !StartsWith(c, Fence) {
      UnfencedStaysPut(c);
    }
  }

  /** A stripped text that does not open with a fence has nothing for the cleanup
      to remove at the front. */
  lemma UnfencedStaysPut(c: string)
    requires IsStripped(c) && !StartsWith(c, Fence)
    ensures StripLeadingFence(c) == c && TrimStart(c) == c && !StartsWith(c, JsonFence)
  {
    assert LeadingSpaces(c) == 0;
    if |c| >= 7 { assert c[..7][..3] == c[..3]; }
  }

  lemma CleanNeverJsonFenced(raw: string)
    requires !DoubleFenced(raw)
    ensures !StartsWith(CleanReply(raw), JsonFence)
  {
    CleanKeepsJsonFenceIff(raw);
  }

  /** Dropping a trailing fence and stripping keeps a leading "```json" exactly when
      one follows the leading whitespace. */
  lemma CutKeepsJsonFence(c1: string)
    ensures StartsWith(Strip(StripTrailingFence(c1)), JsonFence) <==> StartsWith(TrimStart(c1), JsonFence)
  {
    var c2 := StripTrailingFence(c1);
    TrimEndKeepsPrefix(TrimStart(c2), JsonFence);
    if EndsWith(c1, Fence) {
      TrimStartOfCut(c1);
      JsonFenceSurvivesCut(TrimStart(c1));
    }
  }

  /** Leading whitespace never reaches into a trailing fence, so stripping the front
      and cutting the fence commute. */
  lemma TrimStartOfCut(c1: string)
    requires EndsWith(c1, Fence)
    ensures var t := TrimStart(c1);
      EndsWith(t, Fence) && TrimStart(StripTrailingFence(c1)) == t[..|t| - |Fence|]
  {
    var n := |c1|;
    var k := LeadingSpaces(c1);
    assert c1[n - 3] == c1[n - 3..][0] == '`';
    assert k <= n - 3;
    LeadingSpacesUnique(c1[..n - 3], k);
    var t := TrimStart(c1);
    assert t[|t| - 3..] == c1[n - 3..];
  }

  /** A text that ends in a fence opens with "```json" before and after the fence
      is cut: the two cannot overlap. */
  lemma JsonFenceSurvivesCut(t: string)
    requires EndsWith(t, Fence)
    ensures StartsWith(t[..|t| - |Fence|], JsonFence) <==> StartsWith(t, JsonFence)
  {
    if StartsWith(t, JsonFence) {
      assert t[6] == 'n';
      assert forall j :: |t| - 3 <= j < |t| ==> t[j] == t[|t| - 3..][j - (|t| - 3)] == '`';
      assert |t| >= 10;
      assert t[..|t| - 3][..7] == t[..7];
    }
    if StartsWith(t[..|t| - 3], JsonFence) {
      assert t[..|t| - 3][..7] == t[..7];
    }
  }

  // ---------------------------------------------------------------------
  // The three fields
  // ---------------------------------------------------------------------

  /** `gen_ai_output`'s result. A reply that `decode` (json.loads) accepts is taken
      as it is; one it rejects becomes the cleaned text with empty rate and title;
      no choices and a failed call give fixed texts. */
  function GenAiOutput(reply: LlmReply, decode: string -> Option<AiOutput>): (out: AiOutput)
    ensures reply.CallFailed? ==> out == AiOutput(CallFailedPrefix + reply.error, "", "")
    ensures reply.NoChoice? ==> out == AiOutput(NoResponseText, "", "")
    ensures reply.Content? ==>
      var cleaned := CleanReply(reply.text);
      && (decode(cleaned).Some? ==> out == decode(cleaned).value)
      && (decode(cleaned).None? ==> out == AiOutput(cleaned, "", ""))
  {
    match reply
    case CallFailed(error) => AiOutput(CallFailedPrefix + error, "", "")
    case NoChoice => AiOutput(NoResponseText, "", "")
    case Content(text) =>
      var cleaned := CleanReply(text);
      match decode(cleaned)
      case Some(parsed) => parsed
      case None => AiOutput(cleaned, "", "")
  }

  /** Whenever the reply is not decoded, rate and title are empty and the
      description is non-empty unless the reply was blank or a bare fence. */
  lemma FallbackHasNoRateOrTitle(reply: LlmReply, decode: string -> Option<AiOutput>)
    requires !(reply.Content? && decode(CleanReply(reply.text)).Some?)
    ensures GenAiOutput(reply, decode).rate == "" && GenAiOutput(reply, decode).jobTitle == ""
    ensures reply.Content? ==> IsStripped(GenAiOutput(reply, decode).jobDescription)
    ensures !reply.Content? ==> GenAiOutput(reply, decode).jobDescription != ""
  {
  }
}
