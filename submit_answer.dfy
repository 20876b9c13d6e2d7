/** The answer route, app/api/submit-answer/route.ts: look the session up,
    answer 404 when there is none, otherwise compare the coerced answer with
    the stored one, ask the model for feedback, record the attempt (best
    effort) and return feedback, verdict and the stored answer. */
module SubmitAnswer {
  import opened Wrappers
  import opened JavaScript
  import opened Backend

  const SessionNotFound := "Session not found"
  const NotFound := 404
  const ServerError := 500

  /** The request body after `req.json()` and destructuring; `None` is a
      missing property. */
  datatype SubmitBody = SubmitBody(sessionId: Option<Json>, userAnswer: Option<Json>)

  /** `{ feedback, isCorrect, finalAnswer }` (200), or a status and an error. */
  datatype Response = Answered(feedback: string, isCorrect: bool, finalAnswer: int) | Failed(status: int, error: string)

  /** Line 40: `Number(userAnswer) === finalAnswer`. */
  predicate IsCorrect(userAnswer: Option<Json>, finalAnswer: int) {
    ToNumber(userAnswer) == Some(finalAnswer)
  }

  /** A numeric answer is correct exactly when it equals the stored answer. */
  lemma IsCorrectForNumbers(n: int, finalAnswer: int)
    ensures IsCorrect(Some(JNumber(n)), finalAnswer) <==> n == finalAnswer
  {
  }

  /** An answer that coerces to `NaN` (a missing answer, an object, a
      non-numeric string) is never correct. */
  lemma NaNNeverCorrect(userAnswer: Option<Json>, finalAnswer: int)
    requires ToNumber(userAnswer) == None
    ensures !IsCorrect(userAnswer, finalAnswer)
  {
  }

  /** The decimal text of the stored answer, sent as a string, is correct;
      so is the same text with surrounding whitespace. */
  lemma NumericStringCorrect(w1: string, finalAnswer: int, w2: string)
    requires AllWhitespace(w1) && AllWhitespace(w2)
    ensures IsCorrect(Some(JString(w1 + IntToString(finalAnswer) + w2)), finalAnswer)
  {
    StringToNumberIgnoresWhitespace(w1, IntToString(finalAnswer), w2);
    StringToNumberOfIntToString(finalAnswer);
  }

  /** `Number(null)` is 0, so a `null` answer counts as correct for a stored
      answer of 0 (and only then). */
  lemma NullCountsAsZero(finalAnswer: int)
    ensures IsCorrect(Some(JNull), finalAnswer) <==> finalAnswer == 0
  {
  }

  /** A stored answer of 5 against the answers 5 and 4. */
  lemma ScenarioFive()
    ensures IsCorrect(Some(JNumber(5)), 5)
    ensures !IsCorrect(Some(JNumber(4)), 5)
  {
  }

  /** `POST /api/submit-answer`. `request` is the parsed and destructured body
      or what `req.json()` threw; `selectFails` and `auditInsertFails` stand
      for datastore errors on the lookup and on the audit insert. */
  method Post(llm: Llm, db: Datastore, request: Result<SubmitBody, Thrown>, selectFails: bool, auditInsertFails: bool)
    returns (resp: Response)
    requires db.Valid()
    modifies llm, db
    ensures db.Valid() && db.sessions == old(db.sessions)
    // A body that cannot be read: 500, nothing else happens.
    ensures request.Failure? ==>
              && resp == Failed(ServerError, MessageOf(request.error))
              && llm.prompts == old(llm.prompts) && db.submissions == old(db.submissions)
    // No session: 404, no feedback call, no submission.
    ensures request.Success? && (selectFails || FinalAnswerOf(old(db.sessions), request.value.sessionId).None?) ==>
              && resp == Failed(NotFound, SessionNotFound)
              && llm.prompts == old(llm.prompts) && db.submissions == old(db.submissions)
    // A session: one feedback call with the verdict, the coerced answer and the stored answer.
    ensures request.Success? && !selectFails && FinalAnswerOf(old(db.sessions), request.value.sessionId).Some? ==>
              var body := request.value;
              var finalAnswer := FinalAnswerOf(old(db.sessions), body.sessionId).value;
              var isCorrect := IsCorrect(body.userAnswer, finalAnswer);
              var prompt := FeedbackPrompt(isCorrect, ToNumber(body.userAnswer), finalAnswer);
              var reply := llm.replies(|old(llm.prompts)|, prompt);
              && llm.prompts == old(llm.prompts) + [prompt]
              && (reply.Failure? ==>
                    resp == Failed(ServerError, MessageOf(reply.error)) && db.submissions == old(db.submissions))
              && (reply.Success? ==>
                    && resp == Answered(reply.value, isCorrect, finalAnswer)
                    && db.submissions == old(db.submissions) +
                         (if auditInsertFails then [] else [Submission(body.sessionId, body.userAnswer, isCorrect, reply.value)]))
  {
    if request.Failure? {
      return Failed(ServerError, MessageOf(request.error));
    }
    var body := request.value;
    var session := db.SelectFinalAnswer(body.sessionId, selectFails);
    if session.None? {
      return Failed(NotFound, SessionNotFound);
    }
    var finalAnswer := session.value;
    var isCorrect := IsCorrect(body.userAnswer, finalAnswer);
    var feedback := llm.GenerateContent(FeedbackPrompt(isCorrect, ToNumber(body.userAnswer), finalAnswer));
    if feedback.Failure? {
      return Failed(ServerError, MessageOf(feedback.error));
    }
    db.InsertSubmission(Submission(body.sessionId, body.userAnswer, isCorrect, feedback.value), auditInsertFails);
    resp := Answered(feedback.value, isCorrect, finalAnswer);
  }
}
