/** The AI service layer: cleaning a model reply before JSON parsing, the
    prompts for the four generation tasks and the tutor, assembling the
    tutor conversation, and filtering the streamed deltas.
    The AI client and `json.loads` are oracles passed in as functions. */
module ClaudeService {
  import opened Wrappers
  import opened Text
  import opened Exceptions
  import opened Json

  const Model := "gpt-4o"
  /** `max_tokens` of every generation call. */
  const GenerationMaxTokens: nat := 4096
  /** `max_tokens` of both tutor calls. */
  const TutorMaxTokens: nat := 1024
  /** A Markdown code-fence marker. */
  const Fence := "```"

  /** One entry of the `messages` list sent to the provider. */
  datatype ApiMessage = ApiMessage(role: string, content: string)

  /** The arguments of one `client.chat.completions.create` call; `stream`
      is set only by the streaming tutor. */
  datatype CompletionRequest = CompletionRequest(model: string, messages: seq<ApiMessage>, maxTokens: nat, stream: bool)

  /** A single-shot completion: the reply text, or the message of the
      exception the client raised. */
  type Completion = CompletionRequest -> Result<string, string>

  // ---------------------------------------------------------------------
  // Reply cleaning (`_parse_json_response`)

  /** If `s` opens a fence, drop its first line (up to and including the
      first newline); a fence with no newline at all is left as is. */
  function DropFenceLine(s: string): (r: string)
    ensures |r| <= |s| && r == s[|s| - |r|..]
    ensures !StartsWith(s, Fence) || '\n' !in s ==> r == s
    ensures StartsWith(s, Fence) && '\n' in s ==>
      && |r| < |s|
      && s[|s| - |r| - 1] == '\n'
      && '\n' !in s[..|s| - |r| - 1]
  {
    if StartsWith(s, Fence) then AfterFirst(s, '\n') else s
  }

  /** If `s` ends with a fence, drop that closing fence marker. */
  function DropClosingFence(s: string): (r: string)
    ensures |r| <= |s| && r == s[..|r|]
    ensures EndsWith(s, Fence) ==> r + Fence == s
    ensures !EndsWith(s, Fence) ==> r == s
  {
    if EndsWith(s, Fence) then s[..|s| - |Fence|] else s
  }

  /** The source writes this step as `rsplit("```", 1)[0]`, which splits at
      the rightmost fence; on a text ending with a fence that is the same
      as dropping the final marker. */
  lemma DropClosingFenceIsRsplit(s: string)
    requires EndsWith(s, Fence)
    ensures DropClosingFence(s) == BeforeLast(s, Fence)
  {
    BeforeLastOfSuffix(s, Fence);
    var r := BeforeLast(s, Fence);
    assert r == (r + Fence)[..|r|];
  }

  /** The exact text `_parse_json_response` hands to `json.loads`. */
  function CleanReply(raw: string): (r: string)
    ensures NoEdgeSpace(r)
    ensures |r| <= |raw|
  {
    Strip(DropClosingFence(DropFenceLine(Strip(raw))))
  }

  /** Removing the fences keeps a contiguous part of the text. */
  lemma FenceRemovalDecomposes(s: string) returns (pre: string, post: string)
    ensures s == pre + DropClosingFence(DropFenceLine(s)) + post
  {
    var s2 := DropFenceLine(s);
    var s3 := DropClosingFence(s2);
    SplitAtSuffix(s, s2);
    SplitAtPrefix(s2, s3);
    pre := s[..|s| - |s2|];
    post := s2[|s3|..];
    ConcatAssoc(pre, s3, post);
  }

  /** The cleaned text is a contiguous substring of the raw reply: only a
      prefix and a suffix are ever dropped. */
  lemma CleanReplyIsSlice(raw: string) returns (pre: string, post: string)
    ensures raw == pre + CleanReply(raw) + post
  {
    var p0, q0 := StripDecomposes(raw);
    var s1 := Strip(raw);
    var p1, q1 := FenceRemovalDecomposes(s1);
    var s3 := DropClosingFence(DropFenceLine(s1));
    var p2, q2 := StripDecomposes(s3);
    pre := p0 + p1 + p2;
    post := q2 + q1 + q0;
    assert raw == p0 + (p1 + (p2 + Strip(s3) + q2) + q1) + q0;
    ConcatRegroup(p0, p1, p2, Strip(s3), q2, q1, q0);
  }

  /** A reply without a leading or trailing fence reaches the parser as
      its whitespace-trimmed self. */
  lemma CleanReplyUnfenced(raw: string)
    requires !StartsWith(Strip(raw), Fence) && !EndsWith(Strip(raw), Fence)
    ensures CleanReply(raw) == Strip(raw)
  {
    StripIdempotent(raw);
  }

  /** A fenced reply "```lang\n" + body + "```" reaches the parser as the
      trimmed body, whatever the language tag on the opening line. */
  lemma CleanReplyFenced(lang: string, body: string)
    requires '\n' !in lang
    ensures CleanReply(Fence + lang + "\n" + body + Fence) == Strip(body)
  {
    var head := Fence + lang + "\n";
    var raw := head + body + Fence;
    ConcatAffixes(Fence, lang);
    StartsWithExtends(Fence + lang, Fence, "\n");
    StartsWithExtends(head, Fence, body);
    StartsWithExtends(head + body, Fence, Fence);
    ConcatAffixes(head + body, Fence);
    FencedReplyIsTrimmed(raw);
    ConcatAssoc(head, body, Fence);
    FenceLineDropped(lang, body + Fence);
    ClosingFenceDropped(body);
  }

  lemma FencedReplyIsTrimmed(raw: string)
    requires StartsWith(raw, Fence) && EndsWith(raw, Fence)
    ensures Strip(raw) == raw
  {
    assert raw[0] == raw[..3][0] == '`';
    assert raw[|raw| - 1] == raw[|raw| - 3..][2] == '`';
    StripFixedPoint(raw);
  }

  lemma FenceLineDropped(lang: string, rest: string)
    requires '\n' !in lang
    ensures DropFenceLine(Fence + lang + "\n" + rest) == rest
  {
    var head := Fence + lang;
    assert '\n' !in head by {
      assert forall x | x in head :: x in Fence || x in lang;
    }
    var raw := head + ['\n'] + rest;
    assert Fence + lang + "\n" + rest == raw;
    AfterFirstLine(head, '\n', rest);
    assert raw[..3] == Fence;
  }

  lemma ClosingFenceDropped(body: string)
    ensures DropClosingFence(body + Fence) == body
  {
    assert (body + Fence)[|body|..] == Fence;
    assert (body + Fence)[..|body|] == body;
  }

  /** A fenced JSON reply reaches the parser without its fence lines. */
  lemma CleanReplyFencedExample(raw: string)
    requires raw == "```json\n{\"a\":1}\n```"
    ensures CleanReply(raw) == "{\"a\":1}"
  {
    var value := "{\"a\":1}";
    FencedExampleShape(raw, value);
    CleanReplyFenced("json", value + "\n");
    SampleLineStripped(value);
  }

  lemma SampleLineStripped(value: string)
    requires value == "{\"a\":1}"
    ensures Strip(value + "\n") == value
  {
    assert NoEdgeSpace(value);
    StripUnique("", value, "\n");
    assert "" + value + "\n" == value + "\n";
  }

  lemma FencedExampleShape(raw: string, value: string)
    requires raw == "```json\n{\"a\":1}\n```" && value == "{\"a\":1}"
    ensures raw == Fence + "json" + "\n" + (value + "\n") + Fence
  {
  }

  /** A bare JSON reply reaches the parser unchanged. */
  lemma CleanReplyBareExample()
    ensures CleanReply("{\"a\":1}") == "{\"a\":1}"
  {
    var value := "{\"a\":1}";
    assert NoEdgeSpace(value);
    StripFixedPoint(value);
    assert !StartsWith(value, Fence) && !EndsWith(value, Fence);
    CleanReplyUnfenced(value);
  }

  /** `_parse_json_response`: `json.loads` applied to the cleaned reply. */
  function ParseJsonResponse(raw: string, parse: JsonParser): (r: Result<Json, Exception>)
    ensures r.Success? <==> parse(CleanReply(raw)).Success?
    ensures r.Success? ==> r.value == parse(CleanReply(raw)).value
    ensures r.Failure? ==> r.error == JsonDecodeError(parse(CleanReply(raw)).error)
  {
    match parse(CleanReply(raw))
    case Success(v) => Success(v)
    case Failure(m) => Failure(JsonDecodeError(m))
  }

  // ---------------------------------------------------------------------
  // Generation prompts

  /** A generation task with its per-request parameters. */
  datatype Task = Quiz(numQuestions: int) | Flashcards(numCards: int) | Mindmap | Summary {
    /** The tasks whose reply is parsed as JSON. */
    predicate ParsesJson() {
      !Summary?
    }
  }

  /** The system prompts fix the output shape; only their leading sentence
      is kept here. */
  const QuizSystemPrompt := "\nYou are an expert educator who creates high-quality multiple choice quiz questions.\n"
  const FlashcardSystemPrompt := "\nYou are an expert at creating concise, effective study flashcards using the Anki method.\n"
  const MindmapSystemPrompt := "\nYou are an expert at organizing knowledge into clear hierarchical mind maps.\n"
  const SummarySystemPrompt := "\nYou are an expert at summarizing complex documents clearly and concisely.\n"

  function SystemPrompt(task: Task): string {
    match task
    case Quiz(_) => QuizSystemPrompt
    case Flashcards(_) => FlashcardSystemPrompt
    case Mindmap => MindmapSystemPrompt
    case Summary => SummarySystemPrompt
  }

  const CountLead := "Based on the following document, generate exactly "
  const QuizItems := " multiple choice questions.\n"
    + "Questions should test genuine understanding, not just memorization.\n"
    + "Vary difficulty from easy to challenging."
  const FlashcardItems := " flashcards.\n"
    + "Focus on key concepts, definitions, important facts, and relationships between ideas."
  const MindmapInstructions := "Based on the following document, create a mind map with 12-20 nodes.\n"
    + "Identify the central topic, main branches (key themes), and sub-topics."
  const SummaryInstructions := "Write a clear, comprehensive summary of the following document.\n"
    + "Capture the main ideas, key arguments, and important conclusions.\n"
    + "Write for a student who hasn't read the original."
  const DocumentHeading := "\n\nDOCUMENT:\n"

  /** The guidance line(s) of each task; quiz and flashcards name the count. */
  function Instructions(task: Task): string {
    match task
    case Quiz(n) => CountLead + IntToDecimal(n) + QuizItems
    case Flashcards(n) => CountLead + IntToDecimal(n) + FlashcardItems
    case Mindmap => MindmapInstructions
    case Summary => SummaryInstructions
  }

  /** The task instruction: the guidance, then the whole document. */
  function UserPrompt(task: Task, text: string): (p: string)
    ensures StartsWith(p, "\n" + Instructions(task))
    ensures EndsWith(p, DocumentHeading + text + "\n")
  {
    Framed("\n", Instructions(task), DocumentHeading, text, "\n");
    "\n" + Instructions(task) + DocumentHeading + text + "\n"
  }

  /** Five pieces joined open with the first two and close with the last three. */
  lemma Framed(a: string, b: string, c: string, d: string, e: string)
    ensures StartsWith(a + b + c + d + e, a + b)
    ensures EndsWith(a + b + c + d + e, c + d + e)
  {
    assert a + b + c + d + e == (a + b) + (c + d + e);
    ConcatAffixes(a + b, c + d + e);
  }

  /** What a reader of a prompt takes for the requested count: the integer
      right after "generate exactly", if the prompt opens with that line. */
  function RequestedCount(prompt: string): Option<int> {
    var lead := "\n" + CountLead;
    if StartsWith(prompt, lead) then Some(ReadInt(prompt[|lead|..])) else None
  }

  /** The quiz and flashcard prompts ask for exactly the requested count,
      read back from the prompt text; the mind-map and summary prompts ask
      for no count. */
  lemma UserPromptCount(task: Task, text: string)
    ensures task.Quiz? ==> RequestedCount(UserPrompt(task, text)) == Some(task.numQuestions)
    ensures task.Flashcards? ==> RequestedCount(UserPrompt(task, text)) == Some(task.numCards)
    ensures task.Mindmap? || task.Summary? ==> RequestedCount(UserPrompt(task, text)) == None
  {
    match task
    case Quiz(n) =>
      ItemsOpenWithSpace();
      CountPromptReads(n, QuizItems, text);
    case Flashcards(n) =>
      ItemsOpenWithSpace();
      CountPromptReads(n, FlashcardItems, text);
    case Mindmap =>
      LettersDiffer();
      PromptLetter(MindmapInstructions, text, 33);
      NoCountLead(UserPrompt(task, text), 34);
    case Summary =>
      LettersDiffer();
      PromptLetter(SummaryInstructions, text, 40);
      NoCountLead(UserPrompt(task, text), 41);
  }

  /** Where the mind-map and summary instructions part from the count line. */
  lemma LettersDiffer()
    ensures |CountLead| > 40 && |MindmapInstructions| > 33 && |SummaryInstructions| > 40
    ensures MindmapInstructions[33] != CountLead[33]
    ensures SummaryInstructions[40] != CountLead[40]
  {
  }

  lemma ItemsOpenWithSpace()
    ensures QuizItems[0] == ' ' && FlashcardItems[0] == ' '
  {
  }

  /** Character `k` of the instructions is character `k + 1` of the prompt. */
  lemma PromptLetter(ins: string, text: string, k: nat)
    requires k < |ins|
    ensures ("\n" + ins + DocumentHeading + text + "\n")[k + 1] == ins[k]
  {
  }

  /** A prompt opening with the count line reads back the count written
      into it, since the text after the count starts with a space. */
  lemma CountPromptReads(n: int, items: string, text: string)
    requires |items| > 0 && items[0] == ' '
    ensures RequestedCount("\n" + (CountLead + IntToDecimal(n) + items) + DocumentHeading + text + "\n") == Some(n)
  {
    var rest := items + DocumentHeading + text + "\n";
    Regroup("\n", CountLead, IntToDecimal(n), items, DocumentHeading, text, "\n");
    ReadAfterLead("\n" + CountLead, n, rest);
  }

  lemma Regroup(a: string, b: string, d: string, e: string, f: string, g: string, h: string)
    ensures a + (b + d + e) + f + g + h == (a + b) + d + (e + f + g + h)
  {
  }

  lemma ReadAfterLead(lead: string, n: int, rest: string)
    requires |rest| == 0 || !IsDigit(rest[0])
    ensures var p := lead + IntToDecimal(n) + rest;
      StartsWith(p, lead) && ReadInt(p[|lead|..]) == n
  {
    var p := lead + IntToDecimal(n) + rest;
    assert p[..|lead|] == lead;
    assert p[|lead|..] == IntToDecimal(n) + rest;
    ReadIntOfDecimal(n, rest);
  }

  lemma NoCountLead(p: string, k: nat)
    requires 0 < k < |p| && k < |CountLead| + 1 && p[k] != CountLead[k - 1]
    ensures RequestedCount(p) == None
  {
    IndexInConcat("\n", CountLead, k - 1);
    MismatchNotPrefix(p, "\n" + CountLead, k);
  }

  /** Every task prompt embeds the document verbatim, and the quiz and
      flashcard prompts embed the requested count. */
  lemma UserPromptEmbeds(task: Task, text: string)
    ensures Occurs(text, UserPrompt(task, text))
    ensures task.Quiz? ==> Occurs(IntToDecimal(task.numQuestions), UserPrompt(task, text))
    ensures task.Flashcards? ==> Occurs(IntToDecimal(task.numCards), UserPrompt(task, text))
  {
    OccursInConcat("\n" + Instructions(task) + DocumentHeading, text, "\n");
    match task
    case Quiz(n) => CountInPrompt(CountLead, IntToDecimal(n), QuizItems, DocumentHeading, text);
    case Flashcards(n) => CountInPrompt(CountLead, IntToDecimal(n), FlashcardItems, DocumentHeading, text);
    case Mindmap =>
    case Summary =>
  }

  lemma CountInPrompt(lead: string, count: string, items: string, heading: string, text: string)
    ensures Occurs(count, "\n" + (lead + count + items) + heading + text + "\n")
  {
    var p := "\n" + (lead + count + items) + heading + text + "\n";
    assert p == ("\n" + lead) + count + (items + heading + text + "\n");
    OccursInConcat("\n" + lead, count, items + heading + text + "\n");
  }

  /** The request `_call_ai` sends for a task: a system and a user message,
      with the generation token budget. */
  function GenerationRequest(task: Task, text: string): (req: CompletionRequest)
    ensures req.maxTokens == GenerationMaxTokens && !req.stream
    ensures |req.messages| == 2
    ensures req.messages[0] == ApiMessage("system", SystemPrompt(task))
    ensures req.messages[1] == ApiMessage("user", UserPrompt(task, text))
  {
    CompletionRequest(Model, [ApiMessage("system", SystemPrompt(task)), ApiMessage("user", UserPrompt(task, text))], GenerationMaxTokens, false)
  }

  /** What a generation call returns: a parsed JSON value, or the raw reply. */
  datatype Output = Parsed(value: Json) | Plain(text: string)

  /** `generate_quiz`, `generate_flashcards`, `generate_mindmap` and
      `generate_summary`: one completion call, then the parser for every
      task except the summary. */
  function Generate(task: Task, text: string, complete: Completion, parse: JsonParser): (r: Result<Output, Exception>)
    ensures var reply := complete(GenerationRequest(task, text));
      && (reply.Failure? ==> r == Failure(ProviderError(reply.error)))
      && (reply.Success? && !task.ParsesJson() ==> r == Success(Plain(reply.value)))
      && (reply.Success? && task.ParsesJson() ==>
            (r.Success? <==> parse(CleanReply(reply.value)).Success?)
            && (r.Success? ==> r.value == Parsed(parse(CleanReply(reply.value)).value))
            && (r.Failure? ==> r.error == JsonDecodeError(parse(CleanReply(reply.value)).error)))
  {
    var reply :- CallAi(GenerationRequest(task, text), complete);
    if task.ParsesJson() then
      var v :- ParseJsonResponse(reply, parse);
      Success(Parsed(v))
    else
      Success(Plain(reply))
  }

  /** One completion call, with a client failure raised as an exception. */
  function CallAi(req: CompletionRequest, complete: Completion): (r: Result<string, Exception>)
    ensures r.Success? <==> complete(req).Success?
    ensures r.Success? ==> r.value == complete(req).value
    ensures r.Failure? ==> r.error == ProviderError(complete(req).error)
  {
    match complete(req)
    case Success(reply) => Success(reply)
    case Failure(m) => Failure(ProviderError(m))
  }

  // ---------------------------------------------------------------------
  // Tutor

  /** One prior turn of the conversation, as the client sends it. */
  datatype Turn = Turn(role: string, content: string)

  const TutorLead := "\nYou are an expert tutor helping a student understand the following document.\nAnswer questions clearly and helpfully, always grounded in the document content.\nIf the answer isn't in the document, say so honestly rather than guessing.\nWhen relevant, mention which section or concept your answer relates to.\n\nDOCUMENT CONTENT:\n"

  const StreamingLead := "\nYou are an expert tutor helping a student understand the following document.\nAnswer questions clearly and helpfully, always grounded in the document content.\nIf the answer isn't in the document, say so honestly rather than guessing.\n\nDOCUMENT CONTENT:\n"

  /** The blocking tutor's system prompt, grounding the model in the document. */
  function TutorSystemPrompt(context: string): (s: string)
    ensures Occurs(context, s)
  {
    OccursInConcat(TutorLead, context, "\n");
    TutorLead + context + "\n"
  }

  /** The streaming tutor's system prompt (it lacks the section-reference line). */
  function StreamingSystemPrompt(context: string): (s: string)
    ensures Occurs(context, s)
  {
    OccursInConcat(StreamingLead, context, "\n");
    StreamingLead + context + "\n"
  }

  /** The loop copying each prior turn's role and content, in order. */
  function CopyTurns(turns: seq<Turn>): (msgs: seq<ApiMessage>)
    ensures |msgs| == |turns|
    ensures forall i | 0 <= i < |turns| :: msgs[i] == ApiMessage(turns[i].role, turns[i].content)
  {
    if |turns| == 0 then []
    else
      var last := turns[|turns| - 1];
      CopyTurns(turns[..|turns| - 1]) + [ApiMessage(last.role, last.content)]
  }

  /** `api_messages`: the system prompt, then the prior turns. */
  function Conversation(system: string, turns: seq<Turn>): (msgs: seq<ApiMessage>)
    ensures |msgs| == 1 + |turns|
    ensures msgs[0] == ApiMessage("system", system)
    ensures forall i | 0 <= i < |turns| :: msgs[i + 1] == ApiMessage(turns[i].role, turns[i].content)
  {
    [ApiMessage("system", system)] + CopyTurns(turns)
  }

  /** Reads the prior turns back out of an assembled conversation. */
  function TurnsOf(msgs: seq<ApiMessage>): seq<Turn>
    requires |msgs| > 0
  {
    seq(|msgs| - 1, i requires 0 <= i < |msgs| - 1 => Turn(msgs[i + 1].role, msgs[i + 1].content))
  }

  /** Nothing is lost or reordered: the turns can be read back exactly. */
  lemma ConversationRoundTrip(system: string, turns: seq<Turn>)
    ensures TurnsOf(Conversation(system, turns)) == turns
  {
    var back := TurnsOf(Conversation(system, turns));
    assert |back| == |turns|;
    forall i | 0 <= i < |turns| ensures back[i] == turns[i] {
      assert Conversation(system, turns)[i + 1] == ApiMessage(turns[i].role, turns[i].content);
    }
  }

  /** The request `chat_with_tutor` sends. */
  function ChatRequest(context: string, turns: seq<Turn>): (req: CompletionRequest)
    ensures req.maxTokens == TutorMaxTokens && !req.stream
    ensures req.messages == Conversation(TutorSystemPrompt(context), turns)
  {
    CompletionRequest(Model, Conversation(TutorSystemPrompt(context), turns), TutorMaxTokens, false)
  }

  /** The request `stream_tutor_response` sends. */
  function StreamRequest(context: string, turns: seq<Turn>): (req: CompletionRequest)
    ensures req.maxTokens == TutorMaxTokens && req.stream
    ensures req.messages == Conversation(StreamingSystemPrompt(context), turns)
  {
    CompletionRequest(Model, Conversation(StreamingSystemPrompt(context), turns), TutorMaxTokens, true)
  }

  /** `chat_with_tutor`: the provider's reply, unchanged. */
  function ChatWithTutor(context: string, turns: seq<Turn>, complete: Completion): (r: Result<string, Exception>)
    ensures r.Success? <==> complete(ChatRequest(context, turns)).Success?
    ensures r.Success? ==> r.value == complete(ChatRequest(context, turns)).value
    ensures r.Failure? ==> r.error == ProviderError(complete(ChatRequest(context, turns)).error)
  {
    CallAi(ChatRequest(context, turns), complete)
  }

  // ---------------------------------------------------------------------
  // Streaming

  /** How the provider's stream ended: normally, or by raising. */
  datatype StreamEnd = Completed | Raised(error: Exception)

  /** What the streaming client delivers: each chunk's `delta.content`
      (possibly `None`) in order, then how the stream ended. */
  datatype ProviderStream = ProviderStream(deltas: seq<Option<string>>, end: StreamEnd)

  type StreamingCompletion = CompletionRequest -> ProviderStream

  /** The generator's `if delta: yield delta`. */
  function NonEmptyDeltas(deltas: seq<Option<string>>): (r: seq<string>)
    ensures |r| <= |deltas|
    ensures forall i | 0 <= i < |r| :: r[i] != ""
  {
    if |deltas| == 0 then []
    else
      var rest := NonEmptyDeltas(deltas[1..]);
      match deltas[0]
      case Some(d) => if d != "" then [d] + rest else rest
      case None => rest
  }

  /** The filter distributes over concatenation, so it keeps provider order. */
  lemma {:induction false} NonEmptyDeltasAppend(a: seq<Option<string>>, b: seq<Option<string>>)
    ensures NonEmptyDeltas(a + b) == NonEmptyDeltas(a) + NonEmptyDeltas(b)
    decreases |a|
  {
    if |a| == 0 {
      assert a + b == b;
    } else {
      assert (a + b)[0] == a[0];
      assert (a + b)[1..] == a[1..] + b;
      NonEmptyDeltasAppend(a[1..], b);
    }
  }

  /** One delta is kept exactly when it is present and non-empty. */
  lemma NonEmptyDeltasSingle(d: Option<string>)
    ensures d.Some? && d.value != "" ==> NonEmptyDeltas([d]) == [d.value]
    ensures d.None? || d.value == "" ==> NonEmptyDeltas([d]) == []
  {
    assert [d][1..] == [];
  }

  /** Text a delta contributes to the reply (`None` contributes nothing). */
  function DeltaText(d: Option<string>): string {
    match d
    case Some(s) => s
    case None => ""
  }

  function JoinDeltas(deltas: seq<Option<string>>): string {
    if |deltas| == 0 then "" else DeltaText(deltas[0]) + JoinDeltas(deltas[1..])
  }

  function Join(parts: seq<string>): string {
    if |parts| == 0 then "" else parts[0] + Join(parts[1..])
  }

  /** Dropping the empty deltas loses none of the reply's text. */
  lemma {:induction false} NonEmptyDeltasKeepText(deltas: seq<Option<string>>)
    ensures Join(NonEmptyDeltas(deltas)) == JoinDeltas(deltas)
    decreases |deltas|
  {
    if |deltas| > 0 {
      NonEmptyDeltasKeepText(deltas[1..]);
      var rest := NonEmptyDeltas(deltas[1..]);
      match deltas[0]
      case Some(d) =>
        if d != "" {
          assert ([d] + rest)[1..] == rest;
        }
      case None =>
    }
  }

  /** The fragments `stream_tutor_response` yields, then how it ended. */
  datatype Fragments = Fragments(items: seq<string>, end: StreamEnd)

  /** `stream_tutor_response`. */
  function StreamTutorResponse(context: string, turns: seq<Turn>, open: StreamingCompletion): (f: Fragments)
    ensures f.end == open(StreamRequest(context, turns)).end
    ensures f.items == NonEmptyDeltas(open(StreamRequest(context, turns)).deltas)
    ensures forall i | 0 <= i < |f.items| :: f.items[i] != ""
    ensures Join(f.items) == JoinDeltas(open(StreamRequest(context, turns)).deltas)
  {
    var stream := open(StreamRequest(context, turns));
    NonEmptyDeltasKeepText(stream.deltas);
    Fragments(NonEmptyDeltas(stream.deltas), stream.end)
  }
}
