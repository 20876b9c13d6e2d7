/** What the two API routes run against: thrown values and the message a
    route reports for them, the text-generation service as a log of prompts
    with replies chosen by the environment, and the two datastore tables
    `math_problem_sessions` and `math_problem_submissions`. */
module Backend {
  import opened Wrappers
  import opened JavaScript

  // ---------------------------------------------------------------------------
  // Thrown values
  // ---------------------------------------------------------------------------

  /** A value caught by a `catch` block: an `Error` object with its message,
      or any other thrown value. */
  datatype Thrown = ErrorObject(message: string) | NonError

  const UnknownError := "Unknown error"

  /** The message both routes put in a 500 response for a caught value:
      the `Error`'s message, and otherwise "Unknown error". */
  function MessageOf(t: Thrown): (m: string)
    ensures t.NonError? ==> m == UnknownError
    ensures t.ErrorObject? ==> m == t.message
  {
    match t
    case ErrorObject(msg) => msg
    case NonError => UnknownError
  }

  // ---------------------------------------------------------------------------
  // The text-generation service
  // ---------------------------------------------------------------------------

  /** The two prompts the application sends. Their wording is not modelled;
      the feedback prompt carries the three values it embeds. */
  datatype Prompt =
    | ProblemPrompt
    | FeedbackPrompt(isCorrect: bool, userAnswer: Option<int>, finalAnswer: int)

  /** The language model, seen from outside: every call is logged, and the
      reply to the k-th call (text, or a thrown value for a network or API
      failure) is whatever the environment chose for it. */
  class Llm {
    var prompts: seq<Prompt>
    const replies: (nat, Prompt) -> Result<string, Thrown>

    constructor (replies: (nat, Prompt) -> Result<string, Thrown>)
      ensures prompts == [] && this.replies == replies
    {
      prompts := [];
      this.replies := replies;
    }

    /** `model.generateContent(prompt)` then `response.text()`. */
    method GenerateContent(p: Prompt) returns (r: Result<string, Thrown>)
      modifies this
      ensures prompts == old(prompts) + [p]
      ensures r == replies(|old(prompts)|, p)
    {
      r := replies(|prompts|, p);
      prompts := prompts + [p];
    }
  }

  // ---------------------------------------------------------------------------
  // The datastore
  // ---------------------------------------------------------------------------

  /** A row of `math_problem_sessions`. The problem text is the value the
      generator inserted, which the generator only checks for truthiness. */
  datatype SessionRow = SessionRow(id: string, problemText: Json, finalAnswer: int)

  /** A row of `math_problem_submissions`: the session id and the user's
      answer exactly as the request carried them (`None` for a missing
      property), the verdict and the feedback text. */
  datatype Submission = Submission(sessionId: Option<Json>, userAnswer: Option<Json>, isCorrect: bool, feedback: string)

  /** How the datastore answers an insert into `math_problem_sessions`: the
      identifier it generated, or an error with its message. */
  datatype InsertOutcome = Generated(id: string) | InsertError(message: string)

  /** `select("final_answer").eq("id", sessionId).single()` on a sessions
      table: the stored answer when the id is a string naming a row. */
  function FinalAnswerOf(sessions: map<string, SessionRow>, sessionId: Option<Json>): Option<int> {
    match sessionId
    case Some(JString(id)) => if id in sessions then Some(sessions[id].finalAnswer) else None
    case _ => None
  }

  /** Every submission names a stored session. */
  predicate SubmissionsReferToSessions(sessions: map<string, SessionRow>, submissions: seq<Submission>) {
    forall i :: 0 <= i < |submissions| ==> FinalAnswerOf(sessions, submissions[i].sessionId).Some?
  }

  class Datastore {
    var sessions: map<string, SessionRow>
    var submissions: seq<Submission>

    /** Rows are stored under their own id, and every submission refers to
        an existing session. */
    ghost predicate Valid()
      reads this
    {
      && (forall id :: id in sessions ==> sessions[id].id == id)
      && SubmissionsReferToSessions(sessions, submissions)
    }

    constructor ()
      ensures Valid() && sessions == map[] && submissions == []
    {
      sessions := map[];
      submissions := [];
    }

    /** `insert([{ problem_text, final_answer }]).select().single()`. */
    method InsertSession(problemText: Json, finalAnswer: int, outcome: InsertOutcome) returns (r: Result<SessionRow, string>)
      requires Valid()
      requires outcome.Generated? ==> outcome.id !in sessions
      modifies this
      ensures Valid() && submissions == old(submissions)
      ensures outcome.InsertError? ==> r == Failure(outcome.message) && sessions == old(sessions)
      ensures outcome.Generated? ==>
                r == Success(SessionRow(outcome.id, problemText, finalAnswer))
                && sessions == old(sessions)[outcome.id := r.value]
    {
      match outcome
      case InsertError(msg) =>
        r := Failure(msg);
      case Generated(id) =>
        var row := SessionRow(id, problemText, finalAnswer);
        ghost var before := sessions;
        sessions := sessions[id := row];
        forall i | 0 <= i < |submissions|
          ensures FinalAnswerOf(sessions, submissions[i].sessionId).Some?
        {
          assert FinalAnswerOf(before, submissions[i].sessionId).Some?;
        }
        r := Success(row);
    }

    /** The session lookup of the answer route; `fails` stands for a
        datastore error, which the route treats like a missing row. */
    method SelectFinalAnswer(sessionId: Option<Json>, fails: bool) returns (r: Option<int>)
      ensures fails ==> r == None
      ensures !fails ==> r == FinalAnswerOf(sessions, sessionId)
    {
      r := if fails then None else FinalAnswerOf(sessions, sessionId);
    }

    /** The audit insert into `math_problem_submissions`; when the datastore
        fails it, nothing is stored and nobody is told. */
    method InsertSubmission(s: Submission, fails: bool)
      requires Valid()
      requires FinalAnswerOf(sessions, s.sessionId).Some?
      modifies this
      ensures Valid() && sessions == old(sessions)
      ensures submissions == if fails then old(submissions) else old(submissions) + [s]
    {
      if !fails {
        submissions := submissions + [s];
      }
    }
  }
}
