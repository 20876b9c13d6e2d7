/** The problem-generation route, app/api/generate-problem/route.ts: the
    model's reply is trimmed, stripped of its markdown code fence, parsed as
    JSON and checked for a truthy `problem_text` and a numeric
    `final_answer`; only an accepted reply is inserted into
    `math_problem_sessions`. `JSON.parse` is a parameter of the model: a
    partial function onto parsed values, `None` meaning that it throws. */
module GenerateProblem {
  import opened Wrappers
  import opened JavaScript
  import opened Backend

  const Fence := "```"
  const JsonFence := "```json"
  const InvalidAiResponse := "Invalid AI response"
  const ServerError := 500

  // ---------------------------------------------------------------------------
  // Cleaning the reply
  // ---------------------------------------------------------------------------

  /** `text.replace(/```json\s*|```/g, "")`: a left-to-right scan that, at each
      position, removes "```json" together with the whitespace run after it
      (the greedy `\s*`), or else a bare "```", and otherwise keeps the
      character. The pattern is case-sensitive. */
  function StripFences(s: string): string
    decreases |s|
  {
    if StartsWith(s, JsonFence) then StripFences(TrimStart(s[|JsonFence|..]))
    else if StartsWith(s, Fence) then StripFences(s[|Fence|..])
    else if s == [] then []
    else [s[0]] + StripFences(s[1..])
  }

  /** The cleaning of lines 24-27: trim; when the result starts with a fence,
      remove every fence marker and trim again. */
  function Clean(reply: string): (r: string)
    ensures NoEdgeWhitespace(r)
  {
    var text := Trim(reply);
    if StartsWith(text, Fence) then Trim(StripFences(text)) else text
  }

  /** Text without backticks passes through the fence removal untouched. */
  lemma {:induction false} StripFencesKeepsPlainText(b: string, t: string)
    requires '`' !in b
    ensures StripFences(b + t) == b + StripFences(t)
  {
    if b != [] {
      var s := b + t;
      assert s[0] == b[0] && s[0] != '`';
      assert !StartsWith(s, JsonFence) && !StartsWith(s, Fence);
      assert s[1..] == b[1..] + t;
      StripFencesKeepsPlainText(b[1..], t);
      assert [b[0]] + b[1..] == b;
    } else {
      assert b + t == t;
    }
  }

  /** A reply that does not start with a fence once trimmed is only trimmed. */
  lemma CleanUnfenced(reply: string)
    requires !StartsWith(Trim(reply), Fence)
    ensures Clean(reply) == Trim(reply)
  {
  }

  /** A reply whose trimmed text has no backtick at all is only trimmed. */
  lemma CleanWithoutBackticks(reply: string)
    requires '`' !in reply
    ensures Clean(reply) == Trim(reply)
  {
    TrimKeepsAbsent(reply, '`');
    var t := Trim(reply);
    if |t| >= |Fence| {
      assert t[..|Fence|][0] == t[0] != '`';
    }
  }

  /** The trimmed form of a `marker + body + "```"` reply wrapped in
      whitespace is the fenced text itself. */
  lemma TrimOfFenced(pre: string, fenced: string, post: string)
    requires AllWhitespace(pre) && AllWhitespace(post)
    requires StartsWith(fenced, Fence) && fenced[|fenced| - 1] == '`'
    ensures Trim(pre + fenced + post) == fenced
  {
    TrimAbsorbsWhitespace(pre, fenced, post);
    assert fenced[0] == fenced[..|Fence|][0] == '`';
    assert !IsWhitespace('`');
    assert NoEdgeWhitespace(fenced);
    TrimOfTrimmed(fenced);
  }

  /** One step of the scan over a "```json" marker. */
  lemma StripFencesJsonStep(x: string)
    ensures StripFences(JsonFence + x) == StripFences(TrimStart(x))
  {
    var s := JsonFence + x;
    assert s[..|JsonFence|] == JsonFence;
    assert s[|JsonFence|..] == x;
  }

  /** One step of the scan over a bare "```" marker not followed by "json". */
  lemma StripFencesBareStep(x: string)
    requires !StartsWith(Fence + x, JsonFence)
    ensures StripFences(Fence + x) == StripFences(x)
  {
    var s := Fence + x;
    assert s[..|Fence|] == Fence;
    assert s[|Fence|..] == x;
  }

  /** A closing fence disappears. */
  lemma StripFencesOfFence()
    ensures StripFences(Fence) == []
  {
    assert !StartsWith(Fence, JsonFence);
    assert StartsWith(Fence, Fence);
    assert Fence[|Fence|..] == [];
  }

  /** Text without backticks followed by a closing fence comes out as the text. */
  lemma StripFencesOfBodyAndFence(b: string)
    requires '`' !in b
    ensures StripFences(b + Fence) == b
  {
    StripFencesKeepsPlainText(b, Fence);
    StripFencesOfFence();
    assert b + [] == b;
  }

  /** A reply whose trimmed text is a fenced text `fenced` cleans to the
      trimmed result of removing the markers from `fenced`. */
  lemma CleanOfFenced(reply: string, fenced: string)
    requires Trim(reply) == fenced && StartsWith(fenced, Fence)
    ensures Clean(reply) == Trim(StripFences(fenced))
  {
  }

  /** A reply of the form "```json" + whitespace + body + "```", possibly
      surrounded by whitespace, where the body has no backtick, cleans to
      the trimmed body. */
  lemma CleanJsonFenced(pre: string, ws: string, body: string, post: string)
    requires AllWhitespace(pre) && AllWhitespace(ws) && AllWhitespace(post)
    requires '`' !in body
    ensures Clean(pre + JsonFence + ws + body + Fence + post) == Trim(body)
  {
    var fenced := JsonFence + (ws + (body + Fence));
    assert pre + JsonFence + ws + body + Fence + post == pre + fenced + post;
    assert fenced[..|Fence|] == Fence;
    TrimOfFenced(pre, fenced, post);
    // The scan removes "```json" and the whitespace after it ...
    StripFencesJsonStep(ws + (body + Fence));
    TrimStartOfWhitespace(ws);
    TrimStartConcat(ws, body + Fence);
    TrimStartConcat(body, Fence);
    var rest := TrimStart(body);
    assert TrimStart(ws + (body + Fence)) == rest + Fence by {
      assert Fence[0] == '`' && !IsWhitespace('`');
      TrimStartOfTrimmed(Fence);
    }
    // ... copies the body and removes the closing fence.
    TrimStartKeepsAbsent(body, '`');
    StripFencesOfBodyAndFence(rest);
    assert StripFences(fenced) == rest;
    CleanOfFenced(pre + fenced + post, fenced);
    TrimStartIdempotent(body);
  }

  /** An untagged fence around a body without backticks that does not begin
      with "json" does not start with the tagged marker. */
  lemma UntaggedFence(body: string)
    requires '`' !in body && !StartsWith(body, "json")
    ensures !StartsWith(Fence + (body + Fence), JsonFence)
  {
    var fenced := Fence + (body + Fence);
    if |fenced| >= |JsonFence| {
      if |body| >= 4 {
        assert fenced[..|JsonFence|][3..] == body[..4];
      } else {
        assert fenced[..|JsonFence|][3 + |body|] == '`';
      }
    }
  }

  /** The same for an untagged fence "```" + body + "```", provided the body
      does not itself begin with the tag "json". */
  lemma CleanBareFenced(pre: string, body: string, post: string)
    requires AllWhitespace(pre) && AllWhitespace(post)
    requires '`' !in body && !StartsWith(body, "json")
    ensures Clean(pre + Fence + body + Fence + post) == Trim(body)
  {
    var fenced := Fence + (body + Fence);
    assert pre + Fence + body + Fence + post == pre + fenced + post;
    assert fenced[..|Fence|] == Fence;
    TrimOfFenced(pre, fenced, post);
    UntaggedFence(body);
    StripFencesBareStep(body + Fence);
    StripFencesOfBodyAndFence(body);
    assert StripFences(fenced) == body;
    CleanOfFenced(pre + fenced + post, fenced);
  }

  // ---------------------------------------------------------------------------
  // Validating the parsed value
  // ---------------------------------------------------------------------------

  /** The two fields the route keeps from an accepted reply. */
  datatype Problem = Problem(problemText: Json, finalAnswer: int)

  /** Line 32: `problem_text` is truthy and `final_answer` is a number. */
  predicate IsValidProblem(v: Json) {
    && Truthy(Property(v, "problem_text"))
    && Property(v, "final_answer").Some?
    && Property(v, "final_answer").value.JNumber?
  }

  /** Lines 23-40 after the model has answered: clean, parse, check the shape.
      A parse failure and a shape failure both become the same error. */
  function ParseProblem(reply: string, parse: string -> Option<Json>): (r: Result<Problem, Thrown>)
    ensures r.Success? <==> parse(Clean(reply)).Some? && IsValidProblem(parse(Clean(reply)).value)
    ensures r.Failure? ==> r.error == ErrorObject(InvalidAiResponse)
    ensures r.Success? ==>
              var v := parse(Clean(reply)).value;
              && Property(v, "problem_text") == Some(r.value.problemText)
              && Property(v, "final_answer") == Some(JNumber(r.value.finalAnswer))
              && Truthy(Some(r.value.problemText))
  {
    match parse(Clean(reply))
    case None => Failure(ErrorObject(InvalidAiResponse))
    case Some(v) =>
      if IsValidProblem(v) then
        Success(Problem(Property(v, "problem_text").value, Property(v, "final_answer").value.n))
      else
        Failure(ErrorObject(InvalidAiResponse))
  }

  /** Fenced and unfenced forms of the same JSON text are accepted or
      rejected alike, with the same result, whatever the parser. */
  lemma FencedParsesLikeUnfenced(parse: string -> Option<Json>, pre: string, ws: string, body: string, post: string)
    requires AllWhitespace(pre) && AllWhitespace(ws) && AllWhitespace(post)
    requires '`' !in body
    ensures ParseProblem(pre + JsonFence + ws + body + Fence + post, parse) == ParseProblem(body, parse)
  {
    CleanJsonFenced(pre, ws, body, post);
    CleanWithoutBackticks(body);
  }

  /** What the check accepts and rejects, on sample values: a non-string but
      truthy `problem_text` passes, an empty one or a quoted number for
      `final_answer` does not. */
  lemma ValidationExamples()
    ensures IsValidProblem(JObject(map["problem_text" := JString("What is 2+3?"), "final_answer" := JNumber(5)]))
    ensures IsValidProblem(JObject(map["problem_text" := JNumber(7), "final_answer" := JNumber(0)]))
    ensures !IsValidProblem(JObject(map["problem_text" := JString(""), "final_answer" := JNumber(5)]))
    ensures !IsValidProblem(JObject(map["problem_text" := JString("What is 2+3?"), "final_answer" := JString("5")]))
    ensures !IsValidProblem(JObject(map["final_answer" := JNumber(5)]))
    ensures !IsValidProblem(JArray([]))
  {
  }

  // ---------------------------------------------------------------------------
  // The route
  // ---------------------------------------------------------------------------

  /** The inserted row (200), or a status and an error message. */
  datatype Response = Created(row: SessionRow) | Failed(status: int, error: string)

  /** `callAIToGenerateProblem`: one call to the model, then ParseProblem on
      its reply; a failed call propagates what it threw. */
  method CallAIToGenerateProblem(llm: Llm, parse: string -> Option<Json>) returns (r: Result<Problem, Thrown>)
    modifies llm
    ensures llm.prompts == old(llm.prompts) + [ProblemPrompt]
    ensures var reply := llm.replies(|old(llm.prompts)|, ProblemPrompt);
            r == if reply.Failure? then Failure(reply.error) else ParseProblem(reply.value, parse)
  {
    var reply := llm.GenerateContent(ProblemPrompt);
    if reply.Failure? {
      return Failure(reply.error);
    }
    r := ParseProblem(reply.value, parse);
  }

  /** `POST /api/generate-problem`: a rejected or failed generation answers 500
      with the caught message and inserts nothing; otherwise one row is
      inserted and returned, or the datastore's error is returned as 500. */
  method Post(llm: Llm, db: Datastore, parse: string -> Option<Json>, insert: InsertOutcome) returns (resp: Response)
    requires db.Valid()
    requires insert.Generated? ==> insert.id !in db.sessions
    modifies llm, db
    ensures db.Valid() && db.submissions == old(db.submissions)
    ensures llm.prompts == old(llm.prompts) + [ProblemPrompt]
    ensures var reply := llm.replies(|old(llm.prompts)|, ProblemPrompt);
            var problem := if reply.Failure? then Failure(reply.error) else ParseProblem(reply.value, parse);
            if problem.Failure? then
              resp == Failed(ServerError, MessageOf(problem.error)) && db.sessions == old(db.sessions)
            else if insert.InsertError? then
              resp == Failed(ServerError, insert.message) && db.sessions == old(db.sessions)
            else
              && resp == Created(SessionRow(insert.id, problem.value.problemText, problem.value.finalAnswer))
              && db.sessions == old(db.sessions)[insert.id := resp.row]
  {
    var problem := CallAIToGenerateProblem(llm, parse);
    if problem.Failure? {
      return Failed(ServerError, MessageOf(problem.error));
    }
    var inserted := db.InsertSession(problem.value.problemText, problem.value.finalAnswer, insert);
    if inserted.Failure? {
      return Failed(ServerError, inserted.error);
    }
    resp := Created(inserted.value);
  }
}
