# Math Quest: a Dafny model of its request logic and page state machine

Math Quest is a small web application. One API route asks a language model for a
Primary-5 word problem and stores it in the `math_problem_sessions` table. A second
route checks a user's answer against the stored one, asks the model for
encouraging feedback and records the attempt in `math_problem_submissions`. A
single React page drives both routes.

This project models three parts of it:

- **Problem generation** (`generate_problem.dfy`). The model's reply is trimmed.
  A fenced reply has every "```json" marker and every bare "```" marker removed,
  and the result is trimmed again. The regular expression `/```json\s*|```/g` is
  modelled exactly, as the left-to-right scan `StripFences`. The cleaned text is
  given to `JSON.parse`, which is a parameter (a partial function onto the
  `Json` datatype). The parsed value is accepted when `problem_text` is truthy
  and `final_answer` is a number. The route `Post` inserts a row only for an
  accepted reply.
- **Answer submission** (`submit_answer.dfy`). The route looks up the session,
  answers 404 when there is none, and otherwise computes
  `Number(userAnswer) === final_answer`. It makes one feedback call and appends
  one audit row. A failed audit insert is silently ignored.
- **The page** (`page.dfy`). A class holds the nine `useState` fields. Each
  handler is split at its `await` into a start transition and a resolve
  transition. The class also has the enabling and display conditions of the
  controls.

Supporting modules:

- `javascript.dfy`: ECMAScript whitespace and `trim`, parsed JSON values,
  property access, truthiness, and `Number(...)` on integers, where `None`
  plays the role of `NaN`.
- `backend.dfy`: thrown values and the "Unknown error" fallback. The language
  model is a class that logs every prompt and gets its replies from the
  environment. The datastore is a class with a sessions map and a submissions
  sequence. Its invariant is that rows are keyed by their id and every
  submission names an existing session.
- `agreement.dfy`: connects the request the page sends with the verdict the
  answer route computes.

External effects are inputs to the model:

- the model's replies (text, or a thrown value);
- `JSON.parse`;
- the id the datastore generates or the error it returns;
- failures of the session lookup and of the audit insert;
- the replies the page receives.

### Behaviour of the code worth knowing

- Line 32 of the generation route accepts any truthy `problem_text`, not only
  a non-empty string: a number such as `7`, `true`, an array or an object
  passes too (`GenerateProblem.ValidationExamples`), and the stored row keeps
  the value as parsed.
- Line 40 of the answer route computes `Number(userAnswer) === finalAnswer`.
  An answer that converts to `NaN` is never correct
  (`SubmitAnswer.NaNNeverCorrect`), but `Number(null)` is 0, so a posted
  `null` is judged correct against a stored 0 (`SubmitAnswer.NullCountsAsZero`).
  The page posts `null` whenever `Number(answer)` is not a finite number,
  because `JSON.stringify` writes `NaN` and `Infinity` as `null`. The page's
  own comparison on line 155 then shows the answer as wrong
  (`Agreement.NonNumericAnswerJudgedAsZero`). The number input keeps text
  such as "abc" out of `answer`, so from the page this takes a literal that
  overflows, such as "1e309"; any other client can post `null` directly.
- The "New Challenge" button (line 107) is disabled only while a problem is
  loading. A verdict that arrives after a new problem has loaded therefore
  marks the new problem answered and shows the old problem's answer
  (`Page.StaleVerdictScenario`).

## Model

| member | source | states |
|---|---|---|
| `JavaScript.TrimStart` | app/api/generate-problem/route.ts:24 | the result is a suffix of the input, everything removed is whitespace, and it does not start with whitespace |
| `JavaScript.TrimEnd` | app/api/generate-problem/route.ts:24 | the result is a prefix of the input, everything removed is whitespace, and it does not end with whitespace |
| `JavaScript.Trim` | app/api/generate-problem/route.ts:24 | `trim()` leaves neither leading nor trailing whitespace and never lengthens the text |
| `JavaScript.TrimStartOfWhitespace` | app/api/generate-problem/route.ts:24 | trimming the front empties a string exactly when it is all whitespace |
| `JavaScript.TrimEndOfWhitespace` | app/api/generate-problem/route.ts:24 | trimming the end empties a string exactly when it is all whitespace |
| `JavaScript.TrimStartOfTrimmed` | app/api/generate-problem/route.ts:24 | a string that does not start with whitespace is unchanged by trimming the front |
| `JavaScript.TrimStartKeepsAbsent` | app/api/generate-problem/route.ts:24 | trimming the front introduces no character |
| `JavaScript.TrimStartIdempotent` | app/api/generate-problem/route.ts:24 | trimming the front twice is trimming it once |
| `JavaScript.TrimStartConcat` | app/api/generate-problem/route.ts:24 | trimming the front of `x + y` keeps `y` whole unless `x` is all whitespace, in which case it trims `y` |
| `JavaScript.TrimEndConcat` | app/api/generate-problem/route.ts:24 | mirror image: trimming the end of `x + y` keeps `x` whole unless `y` is all whitespace |
| `JavaScript.TrimOfTrimmed` | app/api/generate-problem/route.ts:24 | a string without surrounding whitespace is its own trim |
| `JavaScript.TrimIdempotent` | app/api/generate-problem/route.ts:24-26 | trimming twice is trimming once, which is why the second trim on line 26 finds nothing to remove in text without markers |
| `JavaScript.TrimAbsorbsWhitespace` | app/api/generate-problem/route.ts:24 | whitespace added on either side of a text does not change its trim |
| `JavaScript.TrimKeepsAbsent` | app/api/generate-problem/route.ts:24 | `trim()` introduces no character that was not in the text |
| `JavaScript.StringToNumberOfBlank` | app/page.tsx:155 | `Number(s)` of a blank string, the empty string included, is 0 |
| `JavaScript.DecimalDigits` | app/page.tsx:155 | the decimal text of a natural number is a non-empty run of digits |
| `JavaScript.DigitsValueOfDecimal` | app/page.tsx:155 | reading back the decimal digits of `n` gives `n` |
| `JavaScript.TrimOfIntToString` | app/page.tsx:155 | the decimal text of an integer has no surrounding whitespace |
| `JavaScript.StringToNumberOfIntToString` | app/page.tsx:67 | `Number` of the decimal text of an integer is that integer (round trip) |
| `JavaScript.StringToNumberIgnoresWhitespace` | app/page.tsx:67 | surrounding whitespace does not change the number a string converts to |
| `Backend.MessageOf` | app/api/generate-problem/route.ts:57-64 | a caught `Error` reports its own message; any other thrown value reports "Unknown error" |
| `Backend.Llm.constructor` | app/api/generate-problem/route.ts:6 | a fresh client has sent no prompt |
| `Backend.Llm.GenerateContent` | app/api/generate-problem/route.ts:20-21 | each call logs exactly its prompt and returns the environment's reply for that call |
| `Backend.Datastore.constructor` | app/api/generate-problem/route.ts:3 | the datastore client starts from empty tables, which satisfy the datastore invariant |
| `Backend.Datastore.InsertSession` | app/api/generate-problem/route.ts:48-52 | on success, exactly one row with the generated id and the given fields is added and returned; on error, only the message is returned and the tables are unchanged |
| `Backend.Datastore.SelectFinalAnswer` | app/api/submit-answer/route.ts:29-33 | the stored `final_answer` when the id is a string naming a row and the datastore does not fail; otherwise nothing |
| `Backend.Datastore.InsertSubmission` | app/api/submit-answer/route.ts:46-48 | appends exactly the given record unless the datastore fails, sessions untouched, invariant kept |
| `GenerateProblem.Clean` | app/api/generate-problem/route.ts:24-27 | the cleaned text never has leading or trailing whitespace |
| `GenerateProblem.StripFencesKeepsPlainText` | app/api/generate-problem/route.ts:26 | fence removal copies text without backticks unchanged |
| `GenerateProblem.StripFencesJsonStep` | app/api/generate-problem/route.ts:26 | a "```json" marker is removed together with the whitespace run after it |
| `GenerateProblem.StripFencesBareStep` | app/api/generate-problem/route.ts:26 | a "```" marker not followed by "json" is removed alone |
| `GenerateProblem.StripFencesOfFence` | app/api/generate-problem/route.ts:26 | a closing fence disappears |
| `GenerateProblem.StripFencesOfBodyAndFence` | app/api/generate-problem/route.ts:26 | text without backticks followed by a closing fence comes out as the text |
| `GenerateProblem.CleanUnfenced` | app/api/generate-problem/route.ts:25 | when the trimmed reply does not start with "```", cleaning is just trimming |
| `GenerateProblem.CleanWithoutBackticks` | app/api/generate-problem/route.ts:24-27 | a reply without backticks is only trimmed |
| `GenerateProblem.CleanOfFenced` | app/api/generate-problem/route.ts:25-26 | when the trimmed reply starts with "```", cleaning removes the markers and trims the result |
| `GenerateProblem.TrimOfFenced` | app/api/generate-problem/route.ts:24 | a fenced text wrapped in whitespace trims to the fenced text |
| `GenerateProblem.CleanJsonFenced` | app/api/generate-problem/route.ts:24-26 | a reply "```json" + whitespace + body + "```", with optional whitespace around it and no backtick in the body, cleans to the trimmed body |
| `GenerateProblem.UntaggedFence` | app/api/generate-problem/route.ts:26 | "```" + body + "```" with a body that neither contains a backtick nor begins with "json" does not begin with the "```json" marker |
| `GenerateProblem.CleanBareFenced` | app/api/generate-problem/route.ts:24-26 | the same for "```" + body + "```" when the body does not begin with "json" |
| `GenerateProblem.ParseProblem` | app/api/generate-problem/route.ts:29-40 | accepted exactly when the cleaned text parses to a value with truthy `problem_text` and numeric `final_answer`, returning those two fields; a parse failure and a shape failure give the same "Invalid AI response" error |
| `GenerateProblem.FencedParsesLikeUnfenced` | app/api/generate-problem/route.ts:24-36 | a json-fenced reply and its bare body give the same outcome, for every parser |
| `GenerateProblem.ValidationExamples` | app/api/generate-problem/route.ts:32 | a string or truthy non-string `problem_text` with a numeric answer passes; an empty text, a quoted answer, a missing field or a non-object fails |
| `GenerateProblem.CallAIToGenerateProblem` | app/api/generate-problem/route.ts:8-41 | one prompt is sent; a failed call propagates what it threw, otherwise the reply is cleaned, parsed and checked |
| `GenerateProblem.Post` | app/api/generate-problem/route.ts:43-66 | a rejected or failed generation gives 500 with the caught message ("Invalid AI response", the error's message or "Unknown error") and inserts nothing; an insert error gives 500 with the datastore's message; otherwise exactly one row with the validated fields is inserted and returned |
| `SubmitAnswer.IsCorrectForNumbers` | app/api/submit-answer/route.ts:40 | a numeric answer is correct exactly when it equals the stored answer |
| `SubmitAnswer.NaNNeverCorrect` | app/api/submit-answer/route.ts:40 | an answer that coerces to `NaN` is never correct |
| `SubmitAnswer.NumericStringCorrect` | app/api/submit-answer/route.ts:40 | the stored answer's decimal text, even padded with whitespace, is correct |
| `SubmitAnswer.NullCountsAsZero` | app/api/submit-answer/route.ts:40 | a `null` answer is correct exactly when the stored answer is 0 |
| `SubmitAnswer.ScenarioFive` | app/api/submit-answer/route.ts:40 | against a stored 5, the answer 5 is correct and 4 is not |
| `SubmitAnswer.Post` | app/api/submit-answer/route.ts:24-59 | an unreadable body gives 500; a failed or empty lookup gives 404 "Session not found" with no feedback call and no submission; otherwise one feedback prompt carries the verdict and both answers; the response returns the generator's text, the verdict and the stored answer; exactly one record with the raw session id and raw answer is appended unless the audit insert fails, which does not change the response; a failed feedback call gives 500 and stores nothing |
| `Page.FeedbackPanelLines` | app/page.tsx:155-194 | "Your Answer" shows exactly when the answer is not styled correct; "Correct Answer" shows exactly when `correctAnswer` is non-null and the answer is not styled correct; with no correct answer the answer is never styled correct |
| `Page.TypedDecimalMatches` | app/page.tsx:155 | typing the decimal text of an integer matches exactly that integer |
| `Page.HomePage.constructor` | app/page.tsx:19-27 | the initial state: nothing loaded, empty answer, no feedback, highlighted "New Challenge" |
| `Page.HomePage.StartGenerate` | app/page.tsx:30-36 | fired only while "New Challenge" is enabled (line 107); sets `loadingProblem`, which disables that button; clears feedback, answer and correct answer; clears `hasAnswered`, which makes the answer field editable again, and the highlight; keeps problem and session id |
| `Page.HomePage.ResolveGenerate` | app/page.tsx:38-53 | only a successful reply sets the problem and session id; an error body or exception puts a warning in `problem` and leaves the session id; `loadingProblem` is cleared on every outcome, which enables "New Challenge" again |
| `Page.HomePage.EditAnswer` | app/page.tsx:127-134 | fired only while the field is shown (line 123) and enabled (line 132); the typed value becomes the answer; nothing else changes |
| `Page.HomePage.StartSubmit` | app/page.tsx:57-69 | fired only while the submit button is shown (line 123) and enabled (line 138); without a truthy session id no state changes; otherwise `loadingSubmit` is set, which disables the button, and the session id and `Number(answer)` are sent |
| `Page.HomePage.ResolveSubmit` | app/page.tsx:71-88 | a verdict sets `hasAnswered`, the highlight and the feedback (or its fallback), and the correct answer when one is present; an error body or exception only sets a warning in `feedback`; `loadingSubmit` is cleared on every outcome; after a verdict both the submit button and the answer field are disabled |
| `Page.CorrectRoundScenario` | app/page.tsx:30-89 | generating a problem with session id "abc", typing the decimal text of 5 and submitting sends `{abc, 5}`, shows the answer as correct and disables both the answer field and submit |
| `Page.StaleVerdictScenario` | app/page.tsx:105-107 | a verdict arriving after a newer problem has loaded marks the newer problem answered, with the older problem's answer |
| `Agreement.DisplayAgreesWithVerdict` | app/api/submit-answer/route.ts:40 | for a numeric answer, the page's green styling agrees with the route's verdict on what the page sent |
| `Agreement.NonNumericAnswerJudgedAsZero` | app/api/submit-answer/route.ts:40 | an answer whose `Number` is not an integer is sent as `null`, which the route judges correct against a stored 0, while the page shows it as wrong |
| `Agreement.LetterIsNotANumber` | app/api/submit-answer/route.ts:40 | text that starts with a letter converts to `NaN` |
| `Agreement.NonNumericExample` | app/api/submit-answer/route.ts:40 | "abc" converts to `NaN`, so a client that posts it as the answer is never judged correct |

The page class keeps two invariants in `Valid()`, and every transition preserves them:

- an answered round is highlighted and has feedback;
- a loading flag is only up while a request of its kind is outstanding. Two
  ghost counters track the outstanding requests.

Every transition states its whole new state, and each handler fired by a
control requires that control's enabling condition: `StartGenerate` needs
`GenerateEnabled` (line 107), `EditAnswer` needs `ProblemShown` and
`AnswerEditable` (lines 123 and 132), and `StartSubmit` needs `ProblemShown`
and `SubmitEnabled` (lines 123 and 138). After a verdict, `ResolveSubmit`
ensures that neither submit nor editing is enabled. `hasAnswered` stays set
under every transition except `StartGenerate`. So no further submit and no
edit is possible until `generateProblem` resets it.

The display conditions are `ShowsCorrectStyle` (line 155), `ShowsYourAnswer` (line 181)
and `ShowsCorrectAnswer` (line 188). They all go through `Page.AnswerMatches`, so
the "Correct Answer" line appears only when `correctAnswer` is non-null and
differs from `Number(answer)`.

## Left out

- The prompts' wording and the model's behaviour. Replies are inputs, chosen per call by the environment through `Backend.Llm.replies`.
- The internals of `JSON.parse`, which is a parameter. The model also does not tell apart the `TypeError` that `null.problem_text` throws from a missing property: the same `catch` turns both into "Invalid AI response".
- The datastore client. Ids are generated outside the model, so the insert outcome is a parameter, and a generated id is required to be new.
- The datastore's conversion of a non-string `problem_text` to its text column, and the behaviour of `.single()` on several rows. Rows are keyed by id, so there is at most one row per id.
- The session filter matches only when `sessionId` is a string. A number or another value sent as the id finds no row.
- IEEE-754 arithmetic: numbers are integers, and `NaN` is `None`.
- `JavaScript.StringToNumber`: only blank strings and optionally signed decimal integers convert. Fractions, exponents, hexadecimal, octal and binary literals, and "Infinity" all become `NaN` here.
- `JavaScript.JsonToNumber`: like `StringToNumber` for strings. A one-element array converts through its element, which follows `String([x])` for the JSON values.
- `Page.HomePage.EditAnswer`: accepts any string. The sanitisation of `<input type="number">` (line 128), which only ever delivers "" or a valid floating-point literal, is not modelled.
- `Agreement.SentAnswer`: every value that is not an integer of this model is posted as `null`. The page does the same for `NaN` and `Infinity`, but it posts a fraction such as 1.5 as that number, which lies outside the integer model.
- Strings are sequences of Unicode scalar values rather than UTF-16 code units. Every whitespace character involved lies in the Basic Multilingual Plane.
- `Page.HomePage.ResolveGenerate` and `Page.HomePage.ResolveSubmit` read bodies typed as the page's own interfaces declare them. A body whose fields have other types is not modelled. JSON `null` and a missing `finalAnswer` are treated alike.
- `fetch`, `res.json()` and the scheduling of asynchronous callbacks. Each handler is split at its `await`, and any interleaving of the transitions may be explored, as `Page.StaleVerdictScenario` does.
- React rendering, JSX, CSS classes and icons. Only the conditions that choose what is shown are kept.
- `console.error` logging and loading environment variables (the API key and the datastore credentials).
