/** The generation router: one endpoint per task, and `generate_all`. Each
    endpoint looks the document up before anything else, then makes its
    completion call(s) and maps every exception to a 500. Every reply
    carries the completion requests the endpoint sent, in order. */
module GenerateRouter {
  import opened Wrappers
  import opened Text
  import opened Exceptions
  import opened Json
  import opened ClaudeService
  import opened UploadRouter

  const InvalidJsonDetail := "AI returned invalid JSON. Try again."
  const DefaultQuestions := 8
  const DefaultCards := 15

  /** The response model's check of the value put in its list field: `None`
      when it validates, otherwise the validation message. */
  type Validator = (Task, Json) -> Option<string>

  /** The response body: the document id and the task's content. */
  datatype Response = Response(docId: string, content: Output)

  /** An endpoint's answer, with the completion requests it sent. */
  datatype Reply<T> = Reply(result: Result<T, HttpError>, calls: seq<CompletionRequest>)

  /** The key each JSON task's result is read under. */
  function FieldName(task: Task): string {
    match task
    case Quiz(_) => "questions"
    case Flashcards(_) => "flashcards"
    case Mindmap => "nodes"
    case Summary => "summary"
  }

  /** The `try` body after the generation call, and its two `except`
      clauses: a JSON error is reported with a fixed detail by the
      endpoints that parse, anything else as `str(e)`. */
  function Respond(docId: string, task: Task, g: Result<Output, Exception>, validate: Validator): (r: Result<Response, HttpError>)
    ensures g.Failure? ==> r.Failure?
    ensures g.Failure? && g.error.JsonDecodeError? && task.ParsesJson() ==>
      r == Failure(HttpError(500, InvalidJsonDetail))
    ensures g.Failure? && !(g.error.JsonDecodeError? && task.ParsesJson()) ==>
      r == Failure(ServerError(g.error))
    ensures g.Success? && g.value.Plain? ==> r == Success(Response(docId, g.value))
    ensures r.Success? ==> r.value.docId == docId && g.Success?
    ensures g.Success? && g.value.Parsed? && Subscript(g.value.value, FieldName(task)).Failure? ==>
      r == Failure(ServerError(Subscript(g.value.value, FieldName(task)).error))
    ensures g.Success? && g.value.Parsed? && Subscript(g.value.value, FieldName(task)).Success? ==>
      var field := Subscript(g.value.value, FieldName(task)).value;
      && (validate(task, field).Some? ==> r == Failure(ServerError(ValidationError(validate(task, field).value))))
      && (validate(task, field).None? ==> r == Success(Response(docId, Parsed(field))))
    ensures r.Failure? ==> r.error.status == 500
  {
    match g
    case Failure(e) =>
      if e.JsonDecodeError? && task.ParsesJson() then Failure(HttpError(500, InvalidJsonDetail))
      else Failure(ServerError(e))
    case Success(Plain(s)) => Success(Response(docId, Plain(s)))
    case Success(Parsed(v)) =>
      match Subscript(v, FieldName(task))
      case Failure(e) => Failure(ServerError(e))
      case Success(field) =>
        match validate(task, field)
        case Some(message) => Failure(ServerError(ValidationError(message)))
        case None => Success(Response(docId, Parsed(field)))
  }

  /** One generation endpoint for `task`. A missing document is a 404 and
      no request is sent; otherwise exactly one request is sent. */
  function Endpoint(store: Store, docId: string, task: Task, complete: Completion, parse: JsonParser, validate: Validator): (r: Reply<Response>)
    ensures GetDocumentText(store, docId).Failure? ==>
      r == Reply(Failure(HttpError(404, NotFoundDetail)), [])
    ensures GetDocumentText(store, docId).Success? ==>
      var text := GetDocumentText(store, docId).value;
      && r.calls == [GenerationRequest(task, text)]
      && r.result == Respond(docId, task, Generate(task, text, complete, parse), validate)
  {
    match GetDocumentText(store, docId)
    case Failure(h) => Reply(Failure(h), [])
    case Success(text) =>
      Reply(Respond(docId, task, Generate(task, text, complete, parse), validate), [GenerationRequest(task, text)])
  }

  /** The validator that accepts every field. */
  function AcceptAll(task: Task, field: Json): Option<string> {
    None
  }

  /** A query parameter with a default: the value sent, or the default
      when the client leaves it out. */
  function OrDefault(given: Option<int>, default: int): int {
    if given.Some? then given.value else default
  }

  /** `generate_quiz`; the client may leave out `num_questions`, which is
      then 8. */
  function GenerateQuiz(store: Store, docId: string, numQuestions: Option<int>, complete: Completion, parse: JsonParser, validate: Validator): (r: Reply<Response>)
    ensures GetDocumentText(store, docId).Failure? ==> r == Reply(Failure(HttpError(404, NotFoundDetail)), [])
    ensures GetDocumentText(store, docId).Success? ==>
      r.calls == [GenerationRequest(Quiz(OrDefault(numQuestions, DefaultQuestions)), GetDocumentText(store, docId).value)]
  {
    Endpoint(store, docId, Quiz(OrDefault(numQuestions, DefaultQuestions)), complete, parse, validate)
  }

  /** `generate_flashcards`; the client may leave out `num_cards`, which is
      then 15. */
  function GenerateFlashcards(store: Store, docId: string, numCards: Option<int>, complete: Completion, parse: JsonParser, validate: Validator): (r: Reply<Response>)
    ensures GetDocumentText(store, docId).Failure? ==> r == Reply(Failure(HttpError(404, NotFoundDetail)), [])
    ensures GetDocumentText(store, docId).Success? ==>
      r.calls == [GenerationRequest(Flashcards(OrDefault(numCards, DefaultCards)), GetDocumentText(store, docId).value)]
  {
    Endpoint(store, docId, Flashcards(OrDefault(numCards, DefaultCards)), complete, parse, validate)
  }

  /** `generate_mindmap`. */
  function GenerateMindmap(store: Store, docId: string, complete: Completion, parse: JsonParser, validate: Validator): (r: Reply<Response>)
    ensures GetDocumentText(store, docId).Failure? ==> r == Reply(Failure(HttpError(404, NotFoundDetail)), [])
    ensures GetDocumentText(store, docId).Success? ==>
      r.calls == [GenerationRequest(Mindmap, GetDocumentText(store, docId).value)]
  {
    Endpoint(store, docId, Mindmap, complete, parse, validate)
  }

  /** `generate_summary`: it has no JSON clause, and needs none, since the
      summary is never parsed. */
  function GenerateSummary(store: Store, docId: string, complete: Completion, parse: JsonParser, validate: Validator): (r: Reply<Response>)
    ensures GetDocumentText(store, docId).Failure? ==> r == Reply(Failure(HttpError(404, NotFoundDetail)), [])
    ensures GetDocumentText(store, docId).Success? ==>
      r.calls == [GenerationRequest(Summary, GetDocumentText(store, docId).value)]
  {
    Endpoint(store, docId, Summary, complete, parse, validate)
  }

  /** A count the client leaves out is the endpoint's default: 8 questions,
      15 cards. */
  lemma OmittedCountsAreDefaults(store: Store, docId: string, complete: Completion, parse: JsonParser, validate: Validator)
    ensures GenerateQuiz(store, docId, None, complete, parse, validate)
         == GenerateQuiz(store, docId, Some(8), complete, parse, validate)
    ensures GenerateFlashcards(store, docId, None, complete, parse, validate)
         == GenerateFlashcards(store, docId, Some(15), complete, parse, validate)
  {
  }

  /** What a single endpoint answers once the document is found, in terms of
      the provider's reply and the parser: every failure is a 500, an
      unparseable reply gets the fixed detail, and a success returns the
      requested field (or the summary text) unchanged. */
  lemma EndpointOutcome(store: Store, docId: string, task: Task, complete: Completion, parse: JsonParser, validate: Validator)
    requires GetDocumentText(store, docId).Success?
    ensures var text := GetDocumentText(store, docId).value;
      var reply := complete(GenerationRequest(task, text));
      var r := Endpoint(store, docId, task, complete, parse, validate).result;
      && (r.Failure? ==> r.error.status == 500)
      && (reply.Failure? ==> r == Failure(HttpError(500, reply.error)))
      && (reply.Success? && task.Summary? ==> r == Success(Response(docId, Plain(reply.value))))
      && (reply.Success? && task.ParsesJson() && parse(CleanReply(reply.value)).Failure? ==>
            r == Failure(HttpError(500, InvalidJsonDetail)))
      && (reply.Success? && task.ParsesJson() && parse(CleanReply(reply.value)).Success? ==>
            var v := parse(CleanReply(reply.value)).value;
            (r.Success? <==> Subscript(v, FieldName(task)).Success? && validate(task, Subscript(v, FieldName(task)).value).None?)
            && (r.Success? ==> r.value == Response(docId, Parsed(Subscript(v, FieldName(task)).value))))
  {
    var text := GetDocumentText(store, docId).value;
    var reply := complete(GenerationRequest(task, text));
    var g := Generate(task, text, complete, parse);
    if reply.Failure? {
      assert g == Failure(ProviderError(reply.error));
    }
  }

  /** The requested counts reach the prompt unchanged: the one request the
      quiz and flashcard endpoints send asks for exactly that count. */
  lemma EndpointSendsCount(store: Store, docId: string, task: Task, complete: Completion, parse: JsonParser, validate: Validator)
    requires GetDocumentText(store, docId).Success?
    requires task.Quiz? || task.Flashcards?
    ensures var count := if task.Quiz? then task.numQuestions else task.numCards;
      var calls := Endpoint(store, docId, task, complete, parse, validate).calls;
      && |calls| == 1
      && RequestedCount(calls[0].messages[1].content) == Some(count)
  {
    var text := GetDocumentText(store, docId).value;
    UserPromptCount(task, text);
  }

  // ---------------------------------------------------------------------
  // generate_all

  /** The four calls `generate_all` makes, in order, with the service's
      default counts. */
  const AllTasks: seq<Task> := [Quiz(DefaultQuestions), Flashcards(DefaultCards), Mindmap, Summary]

  /** The tasks `generate_all` runs are those of the four endpoints with
      their counts left out. */
  lemma DefaultTasks()
    ensures AllTasks[0] == Quiz(DefaultQuestions) == Quiz(OrDefault(None, DefaultQuestions))
    ensures AllTasks[1] == Flashcards(DefaultCards) == Flashcards(OrDefault(None, DefaultCards))
    ensures AllTasks[2] == Mindmap && AllTasks[3] == Summary
  {
  }

  /** The outputs of a run of generation calls, and how many were attempted. */
  datatype Run = Run(outputs: Result<seq<Output>, Exception>, attempted: nat)

  /** Generation calls made one after another, stopping at the first that
      raises. */
  function RunInOrder(tasks: seq<Task>, generate: Task -> Result<Output, Exception>): (run: Run)
    ensures run.attempted <= |tasks|
    ensures run.outputs.Success? ==>
      && run.attempted == |tasks|
      && |run.outputs.value| == |tasks|
      && forall i | 0 <= i < |tasks| :: generate(tasks[i]) == Success(run.outputs.value[i])
    ensures run.outputs.Failure? ==>
      && 0 < run.attempted
      && generate(tasks[run.attempted - 1]) == Failure(run.outputs.error)
      && forall i | 0 <= i < run.attempted - 1 :: generate(tasks[i]).Success?
  {
    if |tasks| == 0 then Run(Success([]), 0)
    else
      match generate(tasks[0])
      case Failure(e) => Run(Failure(e), 1)
      case Success(out) =>
        var rest := RunInOrder(tasks[1..], generate);
        var outputs := if rest.outputs.Success? then Success([out] + rest.outputs.value) else rest.outputs;
        Run(outputs, 1 + rest.attempted)
  }

  /** The run is all or nothing: it yields outputs exactly when every call
      succeeds. */
  lemma RunInOrderAllOrNothing(tasks: seq<Task>, generate: Task -> Result<Output, Exception>)
    ensures RunInOrder(tasks, generate).outputs.Success? <==>
      forall i | 0 <= i < |tasks| :: generate(tasks[i]).Success?
  {
    var run := RunInOrder(tasks, generate);
    if run.outputs.Failure? {
      var k := run.attempted - 1;
      assert !generate(tasks[k]).Success?;
    }
  }

  /** The run stops right after the first failing call and reports its
      exception. */
  lemma RunInOrderFirstFailure(tasks: seq<Task>, generate: Task -> Result<Output, Exception>, k: nat)
    requires k < |tasks|
    requires forall i | 0 <= i < k :: generate(tasks[i]).Success?
    requires generate(tasks[k]).Failure?
    ensures RunInOrder(tasks, generate) == Run(Failure(generate(tasks[k]).error), k + 1)
  {
    var run := RunInOrder(tasks, generate);
    assert run.outputs.Failure?;
  }

  /** The requests sent for the first `n` tasks of `generate_all`. */
  function AllRequests(text: string, n: nat): (calls: seq<CompletionRequest>)
    requires n <= |AllTasks|
    ensures |calls| == n
    ensures forall i | 0 <= i < n :: calls[i] == GenerationRequest(AllTasks[i], text)
  {
    seq(n, i requires 0 <= i < n => GenerationRequest(AllTasks[i], text))
  }

  /** The `generate_all` response body. */
  datatype AllResponse = AllResponse(docId: string, questions: Json, flashcards: Json, nodes: Json, summary: string)

  /** A field of a generation output; a plain reply is a `str`, which a
      string key cannot index. */
  function FieldOf(out: Output, key: string): Result<Json, Exception> {
    match out
    case Parsed(v) => Subscript(v, key)
    case Plain(s) => Subscript(String(s), key)
  }

  /** The dict `generate_all` returns, built after all four calls: the three
      subscripts run in order and the first missing field raises. */
  function Assemble(docId: string, quiz: Output, flashcards: Output, mindmap: Output, summary: string): (r: Result<AllResponse, Exception>)
    ensures r.Success? <==>
      FieldOf(quiz, "questions").Success? && FieldOf(flashcards, "flashcards").Success? && FieldOf(mindmap, "nodes").Success?
    ensures r.Success? ==> r.value == AllResponse(docId, FieldOf(quiz, "questions").value,
      FieldOf(flashcards, "flashcards").value, FieldOf(mindmap, "nodes").value, summary)
    ensures FieldOf(quiz, "questions").Failure? ==> r == Failure(FieldOf(quiz, "questions").error)
    ensures FieldOf(quiz, "questions").Success? && FieldOf(flashcards, "flashcards").Failure? ==>
      r == Failure(FieldOf(flashcards, "flashcards").error)
    ensures FieldOf(quiz, "questions").Success? && FieldOf(flashcards, "flashcards").Success? && FieldOf(mindmap, "nodes").Failure? ==>
      r == Failure(FieldOf(mindmap, "nodes").error)
  {
    var questions :- FieldOf(quiz, "questions");
    var cards :- FieldOf(flashcards, "flashcards");
    var nodes :- FieldOf(mindmap, "nodes");
    Success(AllResponse(docId, questions, cards, nodes, summary))
  }

  /** `generate_all`: the document is looked up first; then the four calls
      run in order, stopping at the first exception; any exception, a JSON
      error included, is a 500 showing `str(e)`. No response model checks
      the result. */
  function GenerateAll(store: Store, docId: string, complete: Completion, parse: JsonParser): (r: Reply<AllResponse>)
    ensures GetDocumentText(store, docId).Failure? ==>
      r == Reply(Failure(HttpError(404, NotFoundDetail)), [])
    ensures GetDocumentText(store, docId).Success? ==>
      var text := GetDocumentText(store, docId).value;
      && 0 < |r.calls| <= |AllTasks|
      && (forall i | 0 <= i < |r.calls| :: r.calls[i] == GenerationRequest(AllTasks[i], text))
      && (r.result.Failure? ==> r.result.error.status == 500)
      && (r.result.Success? ==> |r.calls| == |AllTasks| && r.result.value.docId == docId)
  {
    match GetDocumentText(store, docId)
    case Failure(h) => Reply(Failure(h), [])
    case Success(text) =>
      var run := RunInOrder(AllTasks, t => Generate(t, text, complete, parse));
      var calls := AllRequests(text, run.attempted);
      match run.outputs
      case Failure(e) => Reply(Failure(ServerError(e)), calls)
      case Success(outs) =>
        RunShape(text, complete, parse);
        match Assemble(docId, outs[0], outs[1], outs[2], outs[3].text)
        case Failure(e) => Reply(Failure(ServerError(e)), calls)
        case Success(body) => Reply(Success(body), calls)
  }

  /** A run of the four `generate_all` calls that succeeds has four
      outputs, the last a plain text. */
  lemma RunShape(text: string, complete: Completion, parse: JsonParser)
    ensures var run := RunInOrder(AllTasks, t => Generate(t, text, complete, parse));
      run.outputs.Success? ==> |run.outputs.value| == 4 && run.outputs.value[3].Plain?
  {
    var run := RunInOrder(AllTasks, t => Generate(t, text, complete, parse));
    if run.outputs.Success? {
      SummaryIsPlain(text, complete, parse, run.outputs.value[3]);
    }
  }

  /** A summary call that succeeds returns the provider's reply as text. */
  lemma SummaryIsPlain(text: string, complete: Completion, parse: JsonParser, out: Output)
    requires Generate(Summary, text, complete, parse) == Success(out)
    ensures out == Plain(complete(GenerationRequest(Summary, text)).value)
  {
  }

  /** `generate_all` stops at the first failing call: when the quiz reply is
      not JSON, no further request is sent, and the parser's own message is
      reported, where the quiz endpoint reports the fixed detail. */
  lemma GenerateAllStopsAtInvalidQuiz(store: Store, docId: string, complete: Completion, parse: JsonParser, validate: Validator)
    requires GetDocumentText(store, docId).Success?
    requires var text := GetDocumentText(store, docId).value;
      var reply := complete(GenerationRequest(Quiz(DefaultQuestions), text));
      reply.Success? && parse(CleanReply(reply.value)).Failure?
    ensures var text := GetDocumentText(store, docId).value;
      var message := parse(CleanReply(complete(GenerationRequest(Quiz(DefaultQuestions), text)).value)).error;
      && GenerateAll(store, docId, complete, parse)
           == Reply(Failure(HttpError(500, message)), [GenerationRequest(Quiz(DefaultQuestions), text)])
      && GenerateQuiz(store, docId, None, complete, parse, validate).result
           == Failure(HttpError(500, InvalidJsonDetail))
  {
    GenerateAllInvalidQuiz(store, docId, complete, parse);
    QuizEndpointInvalidJson(store, docId, complete, parse, validate);
  }

  lemma GenerateAllInvalidQuiz(store: Store, docId: string, complete: Completion, parse: JsonParser)
    requires GetDocumentText(store, docId).Success?
    requires var text := GetDocumentText(store, docId).value;
      var reply := complete(GenerationRequest(Quiz(DefaultQuestions), text));
      reply.Success? && parse(CleanReply(reply.value)).Failure?
    ensures var text := GetDocumentText(store, docId).value;
      var message := parse(CleanReply(complete(GenerationRequest(Quiz(DefaultQuestions), text)).value)).error;
      GenerateAll(store, docId, complete, parse)
        == Reply(Failure(HttpError(500, message)), [GenerationRequest(Quiz(DefaultQuestions), text)])
  {
    var text := GetDocumentText(store, docId).value;
    var message := QuizParseFailure(text, complete, parse);
    GenerateAllFirstFailure(store, docId, complete, parse, 0);
    FirstRequest(text);
    assert ServerError(JsonDecodeError(message)) == HttpError(500, message);
  }

  /** An unparseable quiz reply is the first task's `JSONDecodeError`. */
  lemma QuizParseFailure(text: string, complete: Completion, parse: JsonParser) returns (message: string)
    requires var reply := complete(GenerationRequest(Quiz(DefaultQuestions), text));
      reply.Success? && parse(CleanReply(reply.value)).Failure?
    ensures message == parse(CleanReply(complete(GenerationRequest(Quiz(DefaultQuestions), text)).value)).error
    ensures Generate(AllTasks[0], text, complete, parse) == Failure(JsonDecodeError(message))
  {
    DefaultTasks();
    message := ParseFailure(AllTasks[0], text, complete, parse);
  }

  /** An unparseable reply to a JSON task is a `JSONDecodeError` carrying
      the parser's message. */
  lemma ParseFailure(task: Task, text: string, complete: Completion, parse: JsonParser) returns (message: string)
    requires task.ParsesJson()
    requires var reply := complete(GenerationRequest(task, text));
      reply.Success? && parse(CleanReply(reply.value)).Failure?
    ensures message == parse(CleanReply(complete(GenerationRequest(task, text)).value)).error
    ensures Generate(task, text, complete, parse) == Failure(JsonDecodeError(message))
  {
    var reply := complete(GenerationRequest(task, text));
    message := parse(CleanReply(reply.value)).error;
    var r := Generate(task, text, complete, parse);
    assert !r.Success?;
  }

  lemma FirstRequest(text: string)
    ensures AllRequests(text, 1) == [GenerationRequest(Quiz(DefaultQuestions), text)]
  {
    assert AllTasks[0] == Quiz(DefaultQuestions);
  }

  lemma QuizEndpointInvalidJson(store: Store, docId: string, complete: Completion, parse: JsonParser, validate: Validator)
    requires GetDocumentText(store, docId).Success?
    requires var text := GetDocumentText(store, docId).value;
      var reply := complete(GenerationRequest(Quiz(DefaultQuestions), text));
      reply.Success? && parse(CleanReply(reply.value)).Failure?
    ensures GenerateQuiz(store, docId, None, complete, parse, validate).result == Failure(HttpError(500, InvalidJsonDetail))
  {
    DefaultTasks();
    QuizInvalidJson(store, docId, None, AllTasks[0], complete, parse, validate);
  }

  /** The quiz endpoint answers an unparseable reply with the fixed detail. */
  lemma QuizInvalidJson(store: Store, docId: string, count: Option<int>, task: Task, complete: Completion, parse: JsonParser, validate: Validator)
    requires task == Quiz(OrDefault(count, DefaultQuestions))
    requires GetDocumentText(store, docId).Success?
    requires var reply := complete(GenerationRequest(task, GetDocumentText(store, docId).value));
      reply.Success? && parse(CleanReply(reply.value)).Failure?
    ensures GenerateQuiz(store, docId, count, complete, parse, validate).result == Failure(HttpError(500, InvalidJsonDetail))
  {
    var text := GetDocumentText(store, docId).value;
    var g := Generate(task, text, complete, parse);
    assert g.Failure? && g.error.JsonDecodeError?;
    assert Endpoint(store, docId, task, complete, parse, validate).result == Respond(docId, task, g, validate);
  }

  /** `generate_all` stops at the first call that raises: exactly the
      requests up to and including that call are sent, and the answer is a
      500 showing `str(e)` of its exception, a JSON error included. */
  lemma GenerateAllFirstFailure(store: Store, docId: string, complete: Completion, parse: JsonParser, k: nat)
    requires GetDocumentText(store, docId).Success?
    requires k < |AllTasks|
    requires forall i | 0 <= i < k :: Generate(AllTasks[i], GetDocumentText(store, docId).value, complete, parse).Success?
    requires Generate(AllTasks[k], GetDocumentText(store, docId).value, complete, parse).Failure?
    ensures var text := GetDocumentText(store, docId).value;
      GenerateAll(store, docId, complete, parse)
        == Reply(Failure(ServerError(Generate(AllTasks[k], text, complete, parse).error)), AllRequests(text, k + 1))
  {
    var text := GetDocumentText(store, docId).value;
    var gen := t => Generate(t, text, complete, parse);
    assert forall i | 0 <= i < k :: gen(AllTasks[i]).Success?;
    RunInOrderFirstFailure(AllTasks, gen, k);
    var run := RunInOrder(AllTasks, gen);
    assert run == Run(Failure(Generate(AllTasks[k], text, complete, parse).error), k + 1);
  }

  /** When all four calls succeed but a reply lacks its field (or is not a
      dict), all four requests have been sent and the answer is a 500
      showing the first failing subscript's `str(e)`. */
  lemma GenerateAllFieldFailure(store: Store, docId: string, complete: Completion, parse: JsonParser)
    requires GetDocumentText(store, docId).Success?
    requires forall i | 0 <= i < |AllTasks| :: Generate(AllTasks[i], GetDocumentText(store, docId).value, complete, parse).Success?
    ensures var text := GetDocumentText(store, docId).value;
      var quiz := FieldOf(Generate(AllTasks[0], text, complete, parse).value, "questions");
      var cards := FieldOf(Generate(AllTasks[1], text, complete, parse).value, "flashcards");
      var nodes := FieldOf(Generate(AllTasks[2], text, complete, parse).value, "nodes");
      var r := GenerateAll(store, docId, complete, parse);
      && (quiz.Failure? ==> r == Reply(Failure(ServerError(quiz.error)), AllRequests(text, 4)))
      && (quiz.Success? && cards.Failure? ==> r == Reply(Failure(ServerError(cards.error)), AllRequests(text, 4)))
      && (quiz.Success? && cards.Success? && nodes.Failure? ==> r == Reply(Failure(ServerError(nodes.error)), AllRequests(text, 4)))
  {
    var text := GetDocumentText(store, docId).value;
    var gen := t => Generate(t, text, complete, parse);
    RunInOrderAllOrNothing(AllTasks, gen);
    var run := RunInOrder(AllTasks, gen);
    var outs := run.outputs.value;
    assert gen(AllTasks[0]) == Success(outs[0]);
    assert gen(AllTasks[1]) == Success(outs[1]);
    assert gen(AllTasks[2]) == Success(outs[2]);
    SummaryIsPlain(text, complete, parse, outs[3]);
  }

  /** When all four calls and the three subscripts succeed, `generate_all`
      returns what the four single endpoints would return, unchecked. */
  lemma GenerateAllAgreesWithEndpoints(store: Store, docId: string, complete: Completion, parse: JsonParser)
    requires GenerateAll(store, docId, complete, parse).result.Success?
    ensures var body := GenerateAll(store, docId, complete, parse).result.value;
      && GenerateQuiz(store, docId, None, complete, parse, AcceptAll).result == Success(Response(docId, Parsed(body.questions)))
      && GenerateFlashcards(store, docId, None, complete, parse, AcceptAll).result == Success(Response(docId, Parsed(body.flashcards)))
      && GenerateMindmap(store, docId, complete, parse, AcceptAll).result == Success(Response(docId, Parsed(body.nodes)))
      && GenerateSummary(store, docId, complete, parse, AcceptAll).result == Success(Response(docId, Plain(body.summary)))
  {
    var outs := GenerateAllOutputs(store, docId, complete, parse);
    EndpointsReturnOutputs(store, docId, complete, parse, outs, GenerateAll(store, docId, complete, parse).result.value);
  }

  /** Four successful outputs that assemble into a body are what the four
      endpoints answer with, when nothing is validated. */
  lemma EndpointsReturnOutputs(store: Store, docId: string, complete: Completion, parse: JsonParser, outs: seq<Output>, body: AllResponse)
    requires GetDocumentText(store, docId).Success?
    requires |outs| == 4 && outs[3].Plain?
    requires forall i | 0 <= i < 4 ::
      Generate(AllTasks[i], GetDocumentText(store, docId).value, complete, parse) == Success(outs[i])
    requires Assemble(docId, outs[0], outs[1], outs[2], outs[3].text) == Success(body)
    ensures GenerateQuiz(store, docId, None, complete, parse, AcceptAll).result == Success(Response(docId, Parsed(body.questions)))
    ensures GenerateFlashcards(store, docId, None, complete, parse, AcceptAll).result == Success(Response(docId, Parsed(body.flashcards)))
    ensures GenerateMindmap(store, docId, complete, parse, AcceptAll).result == Success(Response(docId, Parsed(body.nodes)))
    ensures GenerateSummary(store, docId, complete, parse, AcceptAll).result == Success(Response(docId, Plain(body.summary)))
  {
    AssembledFields(docId, outs[0], outs[1], outs[2], outs[3].text, body);
    FirstEndpointReturns(store, docId, complete, parse, outs[0], body.questions);
    SecondEndpointReturns(store, docId, complete, parse, outs[1], body.flashcards);
    ThirdEndpointReturns(store, docId, complete, parse, outs[2], body.nodes);
    SummaryEndpointReturns(store, docId, complete, parse, outs[3]);
  }

  /** The quiz endpoint, its count left out, answers with the field of
      `generate_all`'s first output. */
  lemma FirstEndpointReturns(store: Store, docId: string, complete: Completion, parse: JsonParser, out: Output, field: Json)
    requires GetDocumentText(store, docId).Success?
    requires Generate(AllTasks[0], GetDocumentText(store, docId).value, complete, parse) == Success(out)
    requires FieldOf(out, "questions") == Success(field)
    ensures GenerateQuiz(store, docId, None, complete, parse, AcceptAll).result == Success(Response(docId, Parsed(field)))
  {
    DefaultTasks();
    QuizEndpointReturns(store, docId, None, AllTasks[0], complete, parse, out, field);
  }

  /** The flashcard endpoint, its count left out, answers with the field of
      `generate_all`'s second output. */
  lemma SecondEndpointReturns(store: Store, docId: string, complete: Completion, parse: JsonParser, out: Output, field: Json)
    requires GetDocumentText(store, docId).Success?
    requires Generate(AllTasks[1], GetDocumentText(store, docId).value, complete, parse) == Success(out)
    requires FieldOf(out, "flashcards") == Success(field)
    ensures GenerateFlashcards(store, docId, None, complete, parse, AcceptAll).result == Success(Response(docId, Parsed(field)))
  {
    DefaultTasks();
    FlashcardsEndpointReturns(store, docId, None, AllTasks[1], complete, parse, out, field);
  }

  /** The mind-map endpoint answers with the field of `generate_all`'s third
      output. */
  lemma ThirdEndpointReturns(store: Store, docId: string, complete: Completion, parse: JsonParser, out: Output, field: Json)
    requires GetDocumentText(store, docId).Success?
    requires Generate(AllTasks[2], GetDocumentText(store, docId).value, complete, parse) == Success(out)
    requires FieldOf(out, "nodes") == Success(field)
    ensures GenerateMindmap(store, docId, complete, parse, AcceptAll).result == Success(Response(docId, Parsed(field)))
  {
    EndpointReturns(store, docId, AllTasks[2], complete, parse, AcceptAll, out, field);
    assert GenerateMindmap(store, docId, complete, parse, AcceptAll) == Endpoint(store, docId, AllTasks[2], complete, parse, AcceptAll);
  }

  /** The summary endpoint answers with the text of a successful summary call. */
  lemma SummaryEndpointReturns(store: Store, docId: string, complete: Completion, parse: JsonParser, out: Output)
    requires GetDocumentText(store, docId).Success?
    requires Generate(AllTasks[3], GetDocumentText(store, docId).value, complete, parse) == Success(out)
    ensures out.Plain?
    ensures GenerateSummary(store, docId, complete, parse, AcceptAll).result == Success(Response(docId, Plain(out.text)))
  {
    SummaryIsPlain(GetDocumentText(store, docId).value, complete, parse, out);
  }

  /** `EndpointReturns` for the quiz endpoint, the count given or left out. */
  lemma QuizEndpointReturns(store: Store, docId: string, count: Option<int>, task: Task, complete: Completion, parse: JsonParser, out: Output, field: Json)
    requires task == Quiz(OrDefault(count, DefaultQuestions))
    requires GetDocumentText(store, docId).Success?
    requires Generate(task, GetDocumentText(store, docId).value, complete, parse) == Success(out)
    requires FieldOf(out, "questions") == Success(field)
    ensures GenerateQuiz(store, docId, count, complete, parse, AcceptAll).result == Success(Response(docId, Parsed(field)))
  {
    assert GenerateQuiz(store, docId, count, complete, parse, AcceptAll) == Endpoint(store, docId, task, complete, parse, AcceptAll);
    EndpointReturns(store, docId, task, complete, parse, AcceptAll, out, field);
  }

  /** `EndpointReturns` for the flashcard endpoint, the count given or left out. */
  lemma FlashcardsEndpointReturns(store: Store, docId: string, count: Option<int>, task: Task, complete: Completion, parse: JsonParser, out: Output, field: Json)
    requires task == Flashcards(OrDefault(count, DefaultCards))
    requires GetDocumentText(store, docId).Success?
    requires Generate(task, GetDocumentText(store, docId).value, complete, parse) == Success(out)
    requires FieldOf(out, "flashcards") == Success(field)
    ensures GenerateFlashcards(store, docId, count, complete, parse, AcceptAll).result == Success(Response(docId, Parsed(field)))
  {
    assert GenerateFlashcards(store, docId, count, complete, parse, AcceptAll) == Endpoint(store, docId, task, complete, parse, AcceptAll);
    EndpointReturns(store, docId, task, complete, parse, AcceptAll, out, field);
  }

  /** The fields of an assembled body are the subscripts of the outputs. */
  lemma AssembledFields(docId: string, quiz: Output, flashcards: Output, mindmap: Output, summary: string, body: AllResponse)
    requires Assemble(docId, quiz, flashcards, mindmap, summary) == Success(body)
    ensures FieldOf(quiz, "questions") == Success(body.questions)
    ensures FieldOf(flashcards, "flashcards") == Success(body.flashcards)
    ensures FieldOf(mindmap, "nodes") == Success(body.nodes)
    ensures body.summary == summary
  {
  }

  /** The four outputs a successful `generate_all` assembled its body from. */
  lemma GenerateAllOutputs(store: Store, docId: string, complete: Completion, parse: JsonParser) returns (outs: seq<Output>)
    requires GenerateAll(store, docId, complete, parse).result.Success?
    ensures GetDocumentText(store, docId).Success?
    ensures |outs| == 4 && outs[3].Plain?
    ensures forall i | 0 <= i < 4 ::
      Generate(AllTasks[i], GetDocumentText(store, docId).value, complete, parse) == Success(outs[i])
    ensures Success(GenerateAll(store, docId, complete, parse).result.value)
      == Assemble(docId, outs[0], outs[1], outs[2], outs[3].text)
  {
    var text := GetDocumentText(store, docId).value;
    var run := RunInOrder(AllTasks, t => Generate(t, text, complete, parse));
    outs := run.outputs.value;
    SummaryIsPlain(text, complete, parse, outs[3]);
  }

  /** A JSON task whose generation output has the task's field is answered
      with that field by its endpoint, when the validator accepts it. */
  lemma EndpointReturns(store: Store, docId: string, task: Task, complete: Completion, parse: JsonParser, validate: Validator, out: Output, field: Json)
    requires GetDocumentText(store, docId).Success?
    requires Generate(task, GetDocumentText(store, docId).value, complete, parse) == Success(out)
    requires FieldOf(out, FieldName(task)) == Success(field)
    requires validate(task, field).None?
    ensures Endpoint(store, docId, task, complete, parse, validate).result == Success(Response(docId, Parsed(field)))
  {
    assert out.Parsed?;
  }

  /** `generate_all` is all or nothing: it answers exactly when all four
      calls succeed and the three replies have their fields. */
  lemma GenerateAllAllOrNothing(store: Store, docId: string, complete: Completion, parse: JsonParser)
    requires GetDocumentText(store, docId).Success?
    ensures var text := GetDocumentText(store, docId).value;
      GenerateAll(store, docId, complete, parse).result.Success? <==>
        && Generate(AllTasks[0], text, complete, parse).Success?
        && Generate(AllTasks[1], text, complete, parse).Success?
        && Generate(AllTasks[2], text, complete, parse).Success?
        && Generate(AllTasks[3], text, complete, parse).Success?
        && FieldOf(Generate(AllTasks[0], text, complete, parse).value, "questions").Success?
        && FieldOf(Generate(AllTasks[1], text, complete, parse).value, "flashcards").Success?
        && FieldOf(Generate(AllTasks[2], text, complete, parse).value, "nodes").Success?
  {
    var text := GetDocumentText(store, docId).value;
    var gen := t => Generate(t, text, complete, parse);
    RunInOrderAllOrNothing(AllTasks, gen);
    var run := RunInOrder(AllTasks, gen);
    if run.outputs.Success? {
      var outs := run.outputs.value;
      assert gen(AllTasks[0]) == Success(outs[0]);
      assert gen(AllTasks[1]) == Success(outs[1]);
      assert gen(AllTasks[2]) == Success(outs[2]);
      assert gen(AllTasks[3]) == Success(outs[3]);
    } else {
      assert !(forall i | 0 <= i < |AllTasks| :: gen(AllTasks[i]).Success?);
      var i :| 0 <= i < |AllTasks| && !gen(AllTasks[i]).Success?;
      assert i == 0 || i == 1 || i == 2 || i == 3;
    }
  }
}
