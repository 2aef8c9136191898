/** The server action `summarizeText` (app/actions.ts): build a prompt for
    the selected mode, hand it to the text-generation provider, and turn
    whatever comes back into a string. The provider is a parameter: a total
    function from prompt to `Outcome`, so the action itself never fails. */
module Gateway {

  import opened Maybe
  import opened Text

  /** The two summary modes, `"word"` and `"sentence"`. */
  datatype Mode = Word | Sentence

  /** What the provider call produced: generated text, or a thrown error
      that may carry an HTTP `statusCode`. */
  datatype Outcome = Ok(text: string) | Err(statusCode: Option<int>)

  const WordInstruction := "Summarize the following text into a single word that captures its essence:\n\n"
  const SentenceInstruction := "Summarize the following text into a single, concise sentence:\n\n"

  /** Status code of an upstream rate-limit rejection. */
  const RateLimited := 429
  // The two long messages are written as concatenations so that the
  // verifier can read off their first characters.
  const RateLimitMessage := "Rate limit reached." + " Please wait a moment before trying again."
  const WordFallback := "Error"
  const SentenceFallback := "An error occurred" + " while generating the summary." + " Please try again later."

  function Instruction(mode: Mode): string {
    match mode
    case Word => WordInstruction
    case Sentence => SentenceInstruction
  }

  function Fallback(mode: Mode): string {
    match mode
    case Word => WordFallback
    case Sentence => SentenceFallback
  }

  /** The prompt sent upstream: the mode's fixed instruction, then the text untouched. */
  function Prompt(text: string, mode: Mode): (p: string)
    ensures |p| == |Instruction(mode)| + |text|
    ensures p[..|Instruction(mode)|] == Instruction(mode)
    ensures p[|Instruction(mode)|..] == text
  {
    Instruction(mode) + text
  }

  /** Recovers the user's text from a prompt of the given mode. */
  function PromptText(p: string, mode: Mode): Option<string> {
    var ins := Instruction(mode);
    if |ins| <= |p| && p[..|ins|] == ins then Some(p[|ins|..]) else None
  }

  lemma PromptRoundTrip(text: string, mode: Mode)
    ensures PromptText(Prompt(text, mode), mode) == Some(text)
  {
  }

  /** The prompt determines both the mode and the text: the two
      instructions first differ at index 42 ("single word" against
      "single, concise"). */
  lemma PromptInjective(t1: string, m1: Mode, t2: string, m2: Mode)
    ensures Prompt(t1, m1) == Prompt(t2, m2) <==> t1 == t2 && m1 == m2
  {
    if Prompt(t1, m1) == Prompt(t2, m2) {
      assert Prompt(t1, m1)[42] == Instruction(m1)[42];
      assert Prompt(t2, m2)[42] == Instruction(m2)[42];
      assert WordInstruction[42] != SentenceInstruction[42];
      assert t1 == Prompt(t1, m1)[|Instruction(m1)|..];
    }
  }

  /** The string `summarizeText` resolves to once the provider call settled. */
  function Respond(mode: Mode, outcome: Outcome): (r: string)
    ensures NoOuterWhitespace(r)
    ensures outcome.Ok? ==> CutFrom(outcome.text, r)
    ensures outcome.Ok? ==> (|r| == 0 <==> AllWhitespace(outcome.text))
    ensures outcome == Err(Some(RateLimited)) ==> r == RateLimitMessage
    ensures outcome.Err? && outcome.statusCode != Some(RateLimited) ==>
              (mode == Word ==> r == "Error") && (mode == Sentence ==> r == SentenceFallback)
    ensures outcome.Err? ==> |r| > 0
  {
    match outcome
    case Ok(text) => Trim(text)
    case Err(code) =>
      if code == Some(RateLimited) then RateLimitMessage else Fallback(mode)
  }

  /** `summarizeText(text, type)` against a provider `upstream`. */
  function Summarize(text: string, mode: Mode, upstream: string -> Outcome): (r: string)
    ensures NoOuterWhitespace(r)
    ensures upstream(Prompt(text, mode)).Ok? ==> CutFrom(upstream(Prompt(text, mode)).text, r)
    ensures upstream(Prompt(text, mode)).Err? ==> |r| > 0
  {
    Respond(mode, upstream(Prompt(text, mode)))
  }

  /** A rate-limit rejection gives the same message in both modes. */
  lemma RateLimitIgnoresMode(text: string, up1: string -> Outcome, up2: string -> Outcome)
    requires up1(Prompt(text, Word)) == Err(Some(RateLimited))
    requires up2(Prompt(text, Sentence)) == Err(Some(RateLimited))
    ensures Summarize(text, Word, up1) == Summarize(text, Sentence, up2) == RateLimitMessage
  {
  }

  /** A failed call resolves to one of the three fixed messages, and which
      one depends only on the status code and the mode. */
  lemma ErrorsGiveFixedMessages(mode: Mode, code: Option<int>)
    ensures Respond(mode, Err(code)) in {RateLimitMessage, WordFallback, SentenceFallback}
    ensures Respond(mode, Err(code)) == RateLimitMessage <==> code == Some(RateLimited)
  {
  }

  /** A successful call hands back the generated text exactly when it was
      already free of outer whitespace. */
  lemma SuccessKeepsTrimmedText(mode: Mode, text: string)
    ensures Respond(mode, Ok(text)) == text <==> NoOuterWhitespace(text)
  {
    TrimFixedPoint(text);
  }

}
