/** The client page, app/page.tsx: nine pieces of React state, the two
    asynchronous handlers split at their `await` into a start transition and
    a resolve transition, the answer field's change handler, and the
    conditions that enable the controls and choose what the feedback panel
    shows. Network replies are inputs, typed as the page's own interfaces
    declare them. */
module Page {
  import opened Wrappers
  import opened JavaScript

  const GenerateFailedPrefix := "\U{26A0}\U{FE0F} Failed to generate problem: "
  const GenerateErrorMessage := "\U{26A0}\U{FE0F} Error generating problem."
  const SubmitErrorPrefix := "\U{26A0}\U{FE0F} "
  const SubmitErrorMessage := "\U{26A0}\U{FE0F} Error submitting answer."
  const FeedbackFallback := "\U{26A0}\U{FE0F} Something went wrong."

  /** What `await fetch(...)` and `await res.json()` deliver: the status
      flag `res.ok` and the body, or an exception from either call. */
  datatype Reply<B> = Fetched(ok: bool, body: B) | FetchThrew

  /** Bodies of the generation route as the page reads them: a body with
      `problem_text`, a body with `error`, or one with neither. */
  datatype ProblemBody =
    | NewProblem(id: string, problemText: string, finalAnswer: int)
    | ProblemError(error: string)
    | ProblemOther

  /** Bodies of the answer route as the page reads them: a body with
      `feedback` (whose `feedback` or `finalAnswer` may still be missing),
      a body with `error`, or one with neither. */
  datatype AnswerBody =
    | Verdict(feedback: Option<string>, isCorrect: bool, finalAnswer: Option<int>)
    | AnswerError(error: string)
    | AnswerOther

  /** The JSON body `submitAnswer` posts: the session id and `Number(answer)`. */
  datatype AnswerRequest = AnswerRequest(sessionId: string, userAnswer: Option<int>)

  /** Line 42: `res.ok && "problem_text" in data`. */
  predicate IsNewProblem(r: Reply<ProblemBody>) {
    r.Fetched? && r.ok && r.body.NewProblem?
  }

  /** Line 73: `res.ok && "feedback" in data`. */
  predicate IsVerdict(r: Reply<AnswerBody>) {
    r.Fetched? && r.ok && r.body.Verdict?
  }

  /** Line 155: `Number(answer) === correctAnswer`. `NaN` equals nothing and
      a number never equals `null`. */
  predicate AnswerMatches(answer: string, correctAnswer: Option<int>) {
    correctAnswer.Some? && StringToNumber(answer) == correctAnswer
  }

  /** Typing the decimal text of an integer, with or without surrounding
      spaces, matches exactly that integer. */
  lemma TypedDecimalMatches(w1: string, m: int, w2: string, n: int)
    requires AllWhitespace(w1) && AllWhitespace(w2)
    ensures AnswerMatches(w1 + IntToString(m) + w2, Some(n)) <==> m == n
  {
    StringToNumberIgnoresWhitespace(w1, IntToString(m), w2);
    StringToNumberOfIntToString(m);
  }

  class HomePage {
    var problem: Option<string>
    var answer: string
    var sessionId: Option<string>
    var feedback: Option<string>
    var correctAnswer: Option<int>
    var loadingProblem: bool
    var loadingSubmit: bool
    var hasAnswered: bool
    var highlightNewChallenge: bool
    // Requests started and not yet resolved, one counter per handler.
    ghost var generatesPending: nat
    ghost var submitsPending: nat

    /** An answered round keeps the "New Challenge" button highlighted and
        has feedback to show; a loading flag is only up while a request of
        its kind is outstanding. */
    ghost predicate Valid()
      reads this
    {
      && (hasAnswered ==> highlightNewChallenge && feedback.Some?)
      && (loadingProblem ==> generatesPending > 0)
      && (loadingSubmit ==> submitsPending > 0)
    }

    /** The initial `useState` values, lines 19-27. */
    constructor ()
      ensures Valid()
      ensures problem == None && answer == "" && sessionId == None && feedback == None
      ensures correctAnswer == None && !loadingProblem && !loadingSubmit && !hasAnswered
      ensures highlightNewChallenge && generatesPending == 0 && submitsPending == 0
    {
      problem, answer, sessionId, feedback, correctAnswer := None, "", None, None, None;
      loadingProblem, loadingSubmit, hasAnswered, highlightNewChallenge := false, false, false, true;
      generatesPending, submitsPending := 0, 0;
    }

    // -------------------------------------------------------------------------
    // Enabling and display conditions
    // -------------------------------------------------------------------------

    /** Line 107: "New Challenge" is disabled while a problem is loading. */
    predicate GenerateEnabled()
      reads this
    {
      !loadingProblem
    }

    /** Line 123: the problem card (answer field and submit button) shows
        when `problem` is truthy. */
    predicate ProblemShown()
      reads this
    {
      problem.Some? && problem.value != ""
    }

    /** Line 132: the answer field is disabled once answered. */
    predicate AnswerEditable()
      reads this
    {
      !hasAnswered
    }

    /** Line 58: `sessionId` is truthy. */
    predicate HasSession()
      reads this
    {
      sessionId.Some? && sessionId.value != ""
    }

    /** Line 138: `!(loadingSubmit || !answer || hasAnswered)`. */
    predicate SubmitEnabled()
      reads this
    {
      !loadingSubmit && answer != "" && !hasAnswered
    }

    /** Line 152: the feedback panel shows when `feedback` is truthy. */
    predicate FeedbackShown()
      reads this
    {
      feedback.Some? && feedback.value != ""
    }

    /** Lines 155-175: green styling and the check icon. */
    predicate ShowsCorrectStyle()
      reads this
    {
      AnswerMatches(answer, correctAnswer)
    }

    /** Line 181: the "Your Answer" line. */
    predicate ShowsYourAnswer()
      reads this
    {
      !AnswerMatches(answer, correctAnswer)
    }

    /** Line 188: the "Correct Answer" line. */
    predicate ShowsCorrectAnswer()
      reads this
    {
      correctAnswer.Some? && !AnswerMatches(answer, correctAnswer)
    }

    // -------------------------------------------------------------------------
    // Transitions
    // -------------------------------------------------------------------------

    /** `generateProblem` up to its `fetch`, lines 31-36, fired by the
        "New Challenge" button while it is enabled. The answer field is
        editable again and the button is disabled until the reply. */
    method StartGenerate()
      requires Valid() && GenerateEnabled()
      modifies this
      ensures Valid() && AnswerEditable() && !GenerateEnabled()
      ensures loadingProblem && feedback == None && answer == "" && correctAnswer == None
      ensures !hasAnswered && !highlightNewChallenge
      ensures problem == old(problem) && sessionId == old(sessionId) && loadingSubmit == old(loadingSubmit)
      ensures generatesPending == old(generatesPending) + 1 && submitsPending == old(submitsPending)
    {
      loadingProblem := true;
      feedback := None;
      answer := "";
      correctAnswer := None;
      hasAnswered := false;
      highlightNewChallenge := false;
      generatesPending := generatesPending + 1;
    }

    /** `generateProblem` after its `fetch`, lines 42-53: only a successful
        reply replaces the session id; an error body or an exception puts a
        warning in place of the problem; `finally` clears the loading flag. */
    method ResolveGenerate(reply: Reply<ProblemBody>)
      requires Valid() && generatesPending > 0
      modifies this
      ensures Valid() && GenerateEnabled()
      ensures !loadingProblem && generatesPending == old(generatesPending) - 1
      ensures IsNewProblem(reply) ==>
                problem == Some(reply.body.problemText) && sessionId == Some(reply.body.id)
      ensures !IsNewProblem(reply) ==> sessionId == old(sessionId)
      ensures reply.Fetched? && !IsNewProblem(reply) ==>
                problem == if reply.body.ProblemError? then Some(GenerateFailedPrefix + reply.body.error) else old(problem)
      ensures reply.FetchThrew? ==> problem == Some(GenerateErrorMessage)
      ensures answer == old(answer) && feedback == old(feedback) && correctAnswer == old(correctAnswer)
      ensures loadingSubmit == old(loadingSubmit) && hasAnswered == old(hasAnswered)
      ensures highlightNewChallenge == old(highlightNewChallenge) && submitsPending == old(submitsPending)
    {
      match reply {
        case FetchThrew =>
          problem := Some(GenerateErrorMessage);
        case Fetched(ok, body) =>
          if ok && body.NewProblem? {
            problem := Some(body.problemText);
            sessionId := Some(body.id);
          } else if body.ProblemError? {
            problem := Some(GenerateFailedPrefix + body.error);
          }
      }
      loadingProblem := false;
      generatesPending := generatesPending - 1;
    }

    /** The answer field's `onChange`, line 130, fired only while the field
        is shown and enabled. */
    method EditAnswer(value: string)
      requires Valid() && ProblemShown() && AnswerEditable()
      modifies this`answer
      ensures Valid() && answer == value
    {
      answer := value;
    }

    /** `submitAnswer` up to its `fetch`, lines 58-68: without a truthy
        session id nothing happens; otherwise the loading flag goes up and
        the session id and `Number(answer)` are sent, and the button is
        disabled until the reply. Fired only while the button is shown and
        enabled. */
    method StartSubmit() returns (sent: Option<AnswerRequest>)
      requires Valid() && ProblemShown() && SubmitEnabled()
      modifies this
      ensures Valid()
      ensures problem == old(problem) && answer == old(answer) && sessionId == old(sessionId)
      ensures feedback == old(feedback) && correctAnswer == old(correctAnswer)
      ensures loadingProblem == old(loadingProblem) && hasAnswered == old(hasAnswered)
      ensures highlightNewChallenge == old(highlightNewChallenge) && generatesPending == old(generatesPending)
      ensures !old(HasSession()) ==>
                sent == None && loadingSubmit == old(loadingSubmit) && submitsPending == old(submitsPending)
      ensures old(HasSession()) ==>
                && sent == Some(AnswerRequest(old(sessionId).value, StringToNumber(old(answer))))
                && loadingSubmit && !SubmitEnabled() && submitsPending == old(submitsPending) + 1
    {
      if !HasSession() {
        sent := None;
      } else {
        sent := Some(AnswerRequest(sessionId.value, StringToNumber(answer)));
        loadingSubmit := true;
        submitsPending := submitsPending + 1;
      }
    }

    /** `submitAnswer` after its `fetch`, lines 73-88: a verdict marks the
        round answered, shows the feedback (or a fallback) and the server's
        answer when it is present; an error body or an exception only puts a
        warning in `feedback`; `finally` clears the loading flag. */
    method ResolveSubmit(reply: Reply<AnswerBody>)
      requires Valid() && submitsPending > 0
      modifies this
      ensures Valid()
      ensures !loadingSubmit && submitsPending == old(submitsPending) - 1
      ensures IsVerdict(reply) ==>
                && feedback == Some(reply.body.feedback.GetOr(FeedbackFallback))
                && correctAnswer == (if reply.body.finalAnswer.Some? then reply.body.finalAnswer else old(correctAnswer))
                && hasAnswered && highlightNewChallenge && !SubmitEnabled() && !AnswerEditable()
      ensures !IsVerdict(reply) ==>
                && correctAnswer == old(correctAnswer) && hasAnswered == old(hasAnswered)
                && highlightNewChallenge == old(highlightNewChallenge)
      ensures reply.Fetched? && !IsVerdict(reply) ==>
                feedback == if reply.body.AnswerError? then Some(SubmitErrorPrefix + reply.body.error) else old(feedback)
      ensures reply.FetchThrew? ==> feedback == Some(SubmitErrorMessage)
      ensures problem == old(problem) && answer == old(answer) && sessionId == old(sessionId)
      ensures loadingProblem == old(loadingProblem) && generatesPending == old(generatesPending)
    {
      match reply {
        case FetchThrew =>
          feedback := Some(SubmitErrorMessage);
        case Fetched(ok, body) =>
          if ok && body.Verdict? {
            feedback := Some(body.feedback.GetOr(FeedbackFallback));
            if body.finalAnswer.Some? {
              correctAnswer := body.finalAnswer;
            }
            hasAnswered := true;
            highlightNewChallenge := true;
          } else if body.AnswerError? {
            feedback := Some(SubmitErrorPrefix + body.error);
          }
      }
      loadingSubmit := false;
      submitsPending := submitsPending - 1;
    }
  }

  /** The feedback panel's lines, lines 155-194: "Your Answer" shows exactly
      when the answer is not styled correct, and "Correct Answer" exactly
      when there is a correct answer and the answer does not match it;
      without a correct answer the answer is never styled correct. */
  lemma FeedbackPanelLines(p: HomePage)
    ensures p.ShowsYourAnswer() <==> !p.ShowsCorrectStyle()
    ensures p.ShowsCorrectAnswer() <==> p.correctAnswer.Some? && !p.ShowsCorrectStyle()
    ensures p.correctAnswer.None? ==> !p.ShowsCorrectStyle() && p.ShowsYourAnswer()
  {
  }

  /** A whole round: new problem with session id "abc" and answer 5,
      the user types the decimal text of 5 and submits. The answer shows as correct, and the
      request sent carried the number 5; no further submit is possible. */
  method CorrectRoundScenario() returns (sent: Option<AnswerRequest>, matched: bool, canSubmit: bool, canEdit: bool)
    ensures sent == Some(AnswerRequest("abc", Some(5)))
    ensures matched && !canSubmit && !canEdit
  {
    var page := new HomePage();
    page.StartGenerate();
    page.ResolveGenerate(Fetched(true, NewProblem("abc", "What is 2+3?", 5)));
    var typed := IntToString(5);
    StringToNumberOfIntToString(5);
    page.EditAnswer(typed);
    sent := page.StartSubmit();
    page.ResolveSubmit(Fetched(true, Verdict(Some("Great job!"), true, Some(5))));
    matched := page.ShowsCorrectStyle();
    canSubmit := page.SubmitEnabled();
    canEdit := page.AnswerEditable();
  }

  /** The "New Challenge" button stays enabled while an answer is being
      checked. When the verdict for the old problem arrives after a new
      problem has loaded, the new problem is marked answered and shows the
      old problem's correct answer, although nothing was submitted for it. */
  method StaleVerdictScenario() returns (session: Option<string>, answered: bool, shown: Option<int>)
    ensures session == Some("def") && answered && shown == Some(5)
  {
    var page := new HomePage();
    page.StartGenerate();
    page.ResolveGenerate(Fetched(true, NewProblem("abc", "What is 2+3?", 5)));
    page.EditAnswer("4");
    var sent := page.StartSubmit();
    assert page.GenerateEnabled();
    page.StartGenerate();
    page.ResolveGenerate(Fetched(true, NewProblem("def", "What is 6*7?", 42)));
    page.ResolveSubmit(Fetched(true, Verdict(Some("Nice try!"), false, Some(5))));
    session, answered, shown := page.sessionId, page.hasAnswered, page.correctAnswer;
  }
}
