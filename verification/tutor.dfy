/** The tutor router: the blocking chat and the Server-Sent Events stream.
    Both look the document up first and ground the tutor in the stored
    text; the request's own `context` field is never read. */
module TutorRouter {
  import opened Wrappers
  import opened Text
  import opened Exceptions
  import opened ClaudeService
  import opened UploadRouter

  /** The `TutorRequest` body. */
  datatype TutorRequest = TutorRequest(docId: string, messages: seq<Turn>, context: string)

  /** The `TutorResponse` body. */
  datatype TutorResponse = TutorResponse(reply: string)

  /** `chat`: the provider's reply, or a 500 showing the error. */
  function Chat(store: Store, request: TutorRequest, complete: Completion): (r: Result<TutorResponse, HttpError>)
    ensures GetDocumentText(store, request.docId).Failure? ==> r == Failure(HttpError(404, NotFoundDetail))
    ensures GetDocumentText(store, request.docId).Success? ==>
      var reply := complete(ChatRequest(GetDocumentText(store, request.docId).value, request.messages));
      && (r.Success? <==> reply.Success?)
      && (r.Success? ==> r.value == TutorResponse(reply.value))
      && (r.Failure? ==> r.error == HttpError(500, reply.error))
  {
    var text :- GetDocumentText(store, request.docId);
    match ChatWithTutor(text, request.messages, complete)
    case Success(reply) => Success(TutorResponse(reply))
    case Failure(e) => Failure(ServerError(e))
  }

  /** The request's `context` does not influence the answer; the tutor is
      always grounded in the stored document. */
  lemma ChatIgnoresContext(store: Store, request: TutorRequest, context: string, complete: Completion)
    ensures Chat(store, request, complete) == Chat(store, request.(context := context), complete)
    ensures GetDocumentText(store, request.docId).Success? ==>
      Occurs(GetDocumentText(store, request.docId).value,
             ChatRequest(GetDocumentText(store, request.docId).value, request.messages).messages[0].content)
  {
  }

  // ---------------------------------------------------------------------
  // Server-Sent Events

  const DataPrefix := "data: "
  const EventEnd := "\n\n"
  const DoneMarker := "[DONE]"
  const ErrorPrefix := "[ERROR] "

  /** One SSE event carrying `payload`: a `data: ` field line, closed by
      the blank line that dispatches it. */
  function Event(payload: string): (e: string)
    ensures StartsWith(e, DataPrefix) && EndsWith(e, EventEnd)
    ensures |e| == |DataPrefix| + |payload| + |EventEnd|
  {
    ConcatAffixes(DataPrefix + payload, EventEnd);
    ConcatAffixes(DataPrefix, payload + EventEnd);
    assert DataPrefix + payload + EventEnd == DataPrefix + (payload + EventEnd);
    DataPrefix + payload + EventEnd
  }

  /** The last event: the done marker, or the error marker with `str(e)`. */
  function Terminator(end: StreamEnd): string {
    match end
    case Completed => Event(DoneMarker)
    case Raised(e) => Event(ErrorPrefix + Str(e))
  }

  /** One event per fragment, in order. */
  function FragmentEvents(items: seq<string>): (events: seq<string>)
    ensures |events| == |items|
    ensures forall i | 0 <= i < |items| :: events[i] == Event(items[i])
  {
    if |items| == 0 then [] else FragmentEvents(items[..|items| - 1]) + [Event(items[|items| - 1])]
  }

  /** `token_generator`: an event per fragment, then the terminator. An
      error raised mid-stream keeps the events already sent. */
  function TokenEvents(f: Fragments): (events: seq<string>)
    ensures |events| == |f.items| + 1
    ensures forall i | 0 <= i < |f.items| :: events[i] == Event(f.items[i])
    ensures events[|f.items|] == Terminator(f.end)
  {
    FragmentEvents(f.items) + [Terminator(f.end)]
  }

  /** `chat_stream`: a missing document is a 404 before any event is sent. */
  function ChatStream(store: Store, request: TutorRequest, open: StreamingCompletion): (r: Result<seq<string>, HttpError>)
    ensures GetDocumentText(store, request.docId).Failure? ==> r == Failure(HttpError(404, NotFoundDetail))
    ensures GetDocumentText(store, request.docId).Success? ==>
      r == Success(TokenEvents(StreamTutorResponse(GetDocumentText(store, request.docId).value, request.messages, open)))
  {
    var text :- GetDocumentText(store, request.docId);
    Success(TokenEvents(StreamTutorResponse(text, request.messages, open)))
  }

  // ---------------------------------------------------------------------
  // Reading the stream back

  /** The payload of one event, if it is framed as one. */
  function Payload(event: string): Option<string> {
    var n := |event|;
    if |DataPrefix| + |EventEnd| <= n && event[..|DataPrefix|] == DataPrefix && event[n - |EventEnd|..] == EventEnd
    then Some(event[|DataPrefix|..n - |EventEnd|])
    else None
  }

  /** An event's payload is read back exactly. */
  lemma PayloadOfEvent(payload: string)
    ensures Payload(Event(payload)) == Some(payload)
  {
    var e := Event(payload);
    assert e[..|DataPrefix|] == DataPrefix;
    assert e[|e| - |EventEnd|..] == EventEnd;
    assert e[|DataPrefix|..|e| - |EventEnd|] == payload;
  }

  /** Only an event has a payload, and it is the event of that payload. */
  lemma PayloadIsEvent(event: string)
    requires Payload(event).Some?
    ensures Event(Payload(event).value) == event
  {
    var n := |event|;
    assert event == event[..|DataPrefix|] + event[|DataPrefix|..n - |EventEnd|] + event[n - |EventEnd|..];
  }

  /** How a client sees the end of the stream. */
  datatype Ending = Done | ErrorShown(message: string)

  /** What a client reading the whole stream recovers. */
  datatype Transcript = Transcript(tokens: seq<string>, ending: Ending)

  function EndingOf(end: StreamEnd): Ending {
    match end
    case Completed => Done
    case Raised(e) => ErrorShown(Str(e))
  }

  /** The payloads of a run of events, if every one is framed. */
  function Payloads(events: seq<string>): (ps: Option<seq<string>>)
    ensures ps.Some? <==> forall i | 0 <= i < |events| :: Payload(events[i]).Some?
    ensures ps.Some? ==> |ps.value| == |events|
    ensures ps.Some? ==> forall i | 0 <= i < |events| :: ps.value[i] == Payload(events[i]).value
  {
    if |events| == 0 then Some([])
    else
      var init := Payloads(events[..|events| - 1]);
      var last := Payload(events[|events| - 1]);
      assert forall i | 0 <= i < |events| - 1 :: events[..|events| - 1][i] == events[i];
      if init.Some? && last.Some? then Some(init.value + [last.value]) else None
  }

  /** The terminator's meaning. */
  function ReadEnding(payload: string): Option<Ending> {
    if payload == DoneMarker then Some(Done)
    else if StartsWith(payload, ErrorPrefix) then Some(ErrorShown(payload[|ErrorPrefix|..]))
    else None
  }

  /** A client reading the whole stream: every event but the last is a
      fragment, the last one says how the stream ended. */
  function ReadStream(events: seq<string>): Option<Transcript> {
    if |events| == 0 then None
    else
      var tokens := Payloads(events[..|events| - 1]);
      var last := Payload(events[|events| - 1]);
      if tokens.Some? && last.Some? && ReadEnding(last.value).Some? then
        Some(Transcript(tokens.value, ReadEnding(last.value).value))
      else None
  }

  /** The events of the fragments read back as the fragments. */
  lemma PayloadsOfFragments(items: seq<string>)
    ensures Payloads(FragmentEvents(items)) == Some(items)
  {
    var events := FragmentEvents(items);
    forall i | 0 <= i < |items|
      ensures Payload(events[i]) == Some(items[i])
    {
      PayloadOfEvent(items[i]);
    }
    assert Payloads(events).value == items;
  }

  /** Round trip: a client reading the whole stream recovers every fragment,
      in order, and how the stream ended. */
  lemma ReadStreamRoundTrip(f: Fragments)
    ensures ReadStream(TokenEvents(f)) == Some(Transcript(f.items, EndingOf(f.end)))
  {
    var events := TokenEvents(f);
    assert events[..|events| - 1] == FragmentEvents(f.items);
    PayloadsOfFragments(f.items);
    match f.end
    case Completed =>
      PayloadOfEvent(DoneMarker);
    case Raised(e) =>
      var payload := ErrorPrefix + Str(e);
      PayloadOfEvent(payload);
      assert payload[|ErrorPrefix|..] == Str(e);
  }

  /** What a streaming tutor answer shows: the fragments joined are the
      provider's whole reply text, and the stream ends as the provider's did. */
  lemma ChatStreamShowsReply(store: Store, request: TutorRequest, open: StreamingCompletion)
    requires GetDocumentText(store, request.docId).Success?
    ensures var text := GetDocumentText(store, request.docId).value;
      var stream := open(StreamRequest(text, request.messages));
      var t := ReadStream(ChatStream(store, request, open).value);
      && t.Some?
      && Join(t.value.tokens) == JoinDeltas(stream.deltas)
      && t.value.ending == EndingOf(stream.end)
  {
    var text := GetDocumentText(store, request.docId).value;
    ReadStreamRoundTrip(StreamTutorResponse(text, request.messages, open));
  }

  /** An event a reader takes for the end of the stream. */
  predicate IsTerminal(event: string) {
    Payload(event).Some? && ReadEnding(Payload(event).value).Some?
  }

  /** The terminator is read as the end of the stream, and says how the
      provider's stream ended: done, or the error's `str(e)`. */
  lemma TerminatorReadsBack(end: StreamEnd)
    ensures IsTerminal(Terminator(end))
    ensures ReadEnding(Payload(Terminator(end)).value) == Some(EndingOf(end))
  {
    match end
    case Completed =>
      PayloadOfEvent(DoneMarker);
    case Raised(e) =>
      var payload := ErrorPrefix + Str(e);
      PayloadOfEvent(payload);
      assert payload[|ErrorPrefix|..] == Str(e);
      assert payload[0] == '[' && payload[1] == 'E';
  }

  /** Exactly one terminal event is sent, the last, and it reports how the
      provider's stream ended, provided no fragment is itself the text of a
      marker. */
  lemma ExactlyOneTerminal(f: Fragments)
    requires forall i | 0 <= i < |f.items| :: ReadEnding(f.items[i]).None?
    ensures forall i | 0 <= i < |f.items| :: !IsTerminal(TokenEvents(f)[i])
    ensures IsTerminal(TokenEvents(f)[|f.items|])
    ensures ReadEnding(Payload(TokenEvents(f)[|f.items|]).value) == Some(EndingOf(f.end))
  {
    forall i | 0 <= i < |f.items|
      ensures !IsTerminal(TokenEvents(f)[i])
    {
      PayloadOfEvent(f.items[i]);
    }
    TerminatorReadsBack(f.end);
  }

  /** A fragment whose text is the done marker is sent as the very event that
      ends a completed stream, so a client stopping at the first such event
      misses what follows, an error included. */
  lemma DoneFragmentLooksFinal(e: Exception)
    ensures TokenEvents(Fragments([DoneMarker], Raised(e)))[0] == TokenEvents(Fragments([], Completed))[0]
  {
  }

  /** The body is the events written one after another. */
  function Body(events: seq<string>): string {
    if |events| == 0 then "" else Body(events[..|events| - 1]) + events[|events| - 1]
  }

  /** Event framing is not escaped: a fragment holding a blank line and
      `data: ` puts the same bytes on the wire as two fragments. */
  lemma BlankLineSplitsFragment()
    ensures Body(TokenEvents(Fragments(["a\n\ndata: b"], Completed)))
         == Body(TokenEvents(Fragments(["a", "b"], Completed)))
  {
    var one := TokenEvents(Fragments(["a\n\ndata: b"], Completed));
    var two := TokenEvents(Fragments(["a", "b"], Completed));
    assert one == [Event("a\n\ndata: b"), Event(DoneMarker)];
    assert two == [Event("a"), Event("b"), Event(DoneMarker)];
    assert one[..1] == [Event("a\n\ndata: b")];
    assert two[..2][..1] == [Event("a")];
    assert Event("a\n\ndata: b") == Event("a") + Event("b");
  }
}
