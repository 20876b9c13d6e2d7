/** How the page's request reaches the answer route, and when the page's
    own colouring of the answer agrees with the route's verdict. The page
    posts `JSON.stringify({ sessionId, userAnswer: Number(answer) })`, which
    turns `NaN` into `null`; the route then applies `Number` again. */
module Agreement {
  import opened Wrappers
  import opened JavaScript
  import SubmitAnswer
  import Page

  /** `JSON.stringify` of a number: `NaN` is written as `null`. */
  function SentAnswer(n: Option<int>): Json {
    match n
    case Some(v) => JNumber(v)
    case None => JNull
  }

  /** The body the answer route reads from the page's request. */
  function RequestBody(r: Page.AnswerRequest): SubmitAnswer.SubmitBody {
    SubmitAnswer.SubmitBody(Some(JString(r.sessionId)), Some(SentAnswer(r.userAnswer)))
  }

  /** For an answer that is a number, the green styling and the route's
      verdict agree. */
  lemma DisplayAgreesWithVerdict(answer: string, finalAnswer: int)
    requires StringToNumber(answer).Some?
    ensures Page.AnswerMatches(answer, Some(finalAnswer))
            <==> SubmitAnswer.IsCorrect(RequestBody(Page.AnswerRequest("", StringToNumber(answer))).userAnswer, finalAnswer)
  {
  }

  /** When `Number(answer)` is not an integer of this model, the page posts
      `null`; the route reads `null` as 0 and judges it correct against a
      stored 0, while the page's own comparison shows it as wrong. The
      number input keeps text such as "abc" out of `answer`, so from the
      page this arises only for a literal that overflows to `Infinity`
      (such as "1e309"), which `JSON.stringify` also writes as `null`. */
  lemma NonNumericAnswerJudgedAsZero(answer: string)
    requires StringToNumber(answer) == None
    ensures !Page.AnswerMatches(answer, Some(0))
    ensures SubmitAnswer.IsCorrect(RequestBody(Page.AnswerRequest("", StringToNumber(answer))).userAnswer, 0)
  {
  }

  /** A string that starts with a letter and has no surrounding whitespace
      is not a number. */
  lemma LetterIsNotANumber(s: string)
    requires s != [] && 'a' <= s[0] <= 'z' && !IsWhitespace(s[|s| - 1])
    ensures StringToNumber(s) == None
  {
    assert !IsWhitespace(s[0]);
    TrimOfTrimmed(s);
    assert !IsDigit(s[0]);
  }

  /** "abc" is not a number, so a client that posts it as `userAnswer` is
      never judged correct. */
  lemma NonNumericExample(finalAnswer: int)
    ensures StringToNumber("abc") == None
    ensures !SubmitAnswer.IsCorrect(Some(JString("abc")), finalAnswer)
  {
    LetterIsNotANumber("abc");
  }
}
