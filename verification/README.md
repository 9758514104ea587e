# AI study-group backend, modelled in Dafny

This project models the logic at the centre of a FastAPI backend. The backend turns an uploaded PDF into study material: a quiz, flashcards, a mind map and a summary. It also offers an AI tutor that answers questions about the document, either in one reply or as a Server-Sent Events stream.

The model covers five parts:

- **Reply cleaning** (`_parse_json_response`). The model's reply is trimmed, stripped of a Markdown code fence and handed to the JSON parser.
- **Text extraction** (`extract_text_from_pdf`). Page texts are joined, a blank document is rejected, the text is capped at 40,000 characters with a marker, and a 300-character preview is built.
- **The document store** (`document_store`, `upload_pdf`, `get_document_text`). The store is a map from document id to text. It is passed in and returned explicitly.
- **Request orchestration** (the generation and tutor routers):
  - the document lookup comes before the `try`;
  - errors map to HTTP errors;
  - the tutor conversation is assembled from the prior turns;
  - `generate_all` runs its four calls in a fixed order, all or nothing.
- **Event framing** for the streaming tutor. Each fragment becomes a `data: …` event, and one terminal event follows: `[DONE]` or `[ERROR]`. The event format is the `data:` field line of section 9.2, "Server-sent events", of the WHATWG HTML Living Standard. The reader modelled here is handed the events one by one. It is not the standard's line-based parser of the byte stream.

Functions passed in as parameters stand for everything outside this logic:

- the chat-completion client (`Completion`, `StreamingCompletion`);
- `json.loads` (`JsonParser`, which returns the value, or `str(e)` of the `JSONDecodeError` `e` it raises);
- the response models' validation (`Validator`);
- the PDF reader (its per-page texts are an input);
- `uuid.uuid4` (the document id is an input).

Every reply from the generation router also records the completion requests it sent. This is how "a 404 sends no request" and "generate_all stops at the first failure" are stated. Each request records its model, messages, `max_tokens` and whether it asks for a stream.

The files are:

- `wrappers.dfy`: `Option` and `Result`.
- `text.dfy`: Python's `str.strip`, `startswith`/`endswith`, `split(sep, 1)`, `rsplit(sep, 1)` and decimal formatting of an `int`.
- `exceptions.dfy`: the exceptions, `str(e)` and `HTTPException`.
- `json.dfy`: JSON values and subscripting.
- `claude_service.dfy`: `app/services/claude_service.py`.
- `pdf_service.dfy`: `app/services/pdf_service.py`.
- `upload.dfy`: `app/routers/upload.py`.
- `generate.dfy`: `app/routers/generate.py`.
- `tutor.dfy`: `app/routers/tutor.py`.

## Model

| member | source | states |
|---|---|---|
| Text.Strip | app/services/claude_service.py:34-39 | `str.strip()` leaves no whitespace, as `str.isspace` defines it, at either edge, and never lengthens the text |
| Text.AsciiSpace | app/services/claude_service.py:34 | on ASCII, the whitespace `strip` removes is exactly the space, tab to carriage return, and the separators 0x1C to 0x1F, as `str.isspace` defines it |
| Text.StripDecomposes | app/services/claude_service.py:34 | stripping removes only whitespace: the input is an all-space prefix, then the stripped text, then an all-space suffix |
| Text.StripUnique | app/services/claude_service.py:34 | reference definition of strip: whatever sits between an all-space prefix and an all-space suffix, with no edge whitespace of its own, is what strip returns |
| Text.StripFixedPoint | app/services/claude_service.py:39 | strip leaves a text unchanged exactly when its first and last characters are not whitespace |
| Text.StripIdempotent | app/services/claude_service.py:39 | stripping the already-stripped text (the second strip) changes nothing |
| Text.StripBlank | app/services/pdf_service.py:35 | `not text.strip()` holds exactly when the text is empty or all whitespace |
| Text.AfterFirstLine | app/services/claude_service.py:36 | `split("\n", 1)[-1]` returns exactly what follows the first newline |
| Text.LastIndexOf | app/services/claude_service.py:38 | the position `rsplit` splits at is an occurrence of the separator with no occurrence to its right |
| Text.BeforeLastOfSuffix | app/services/claude_service.py:38 | on a text ending with the separator, `rsplit(sep, 1)[0]` plus the separator rebuilds the text |
| Text.NatToDecimalRoundTrip | app/services/claude_service.py:70 | the decimal digits an f-string writes for a count read back as that count |
| Text.IntToDecimalRoundTrip | app/services/claude_service.py:99 | the text an f-string writes for any int, negative ones included, reads back as that int |
| Text.ReadIntOfDecimal | app/services/claude_service.py:70 | the integer an f-string writes is read back from the text it starts, whatever non-digit text follows |
| Json.Subscript | app/routers/generate.py:26 | `result["questions"]` returns the field when the parsed value is a dict with that key; it raises `KeyError` when the key is missing and `TypeError` when the value is not a dict |
| Json.NotSubscriptable | app/routers/generate.py:26 | the full `TypeError` text of subscripting a non-dict with a string: "'NoneType' object is not subscriptable" and likewise for `bool`, `int` and `float`; "string indices must be integers, not 'str'"; "list indices must be integers or slices, not str" |
| Exceptions.Str | app/routers/generate.py:30 | `str(e)` is the exception's message, and for a `KeyError` the key in single quotes |
| ClaudeService.DropFenceLine | app/services/claude_service.py:35-36 | a reply opening with a fence loses everything up to and including its first newline; with no fence, or no newline, it is unchanged; what remains is a suffix |
| ClaudeService.DropClosingFence | app/services/claude_service.py:37-38 | a reply ending with a fence loses exactly that fence; otherwise it is unchanged; what remains is a prefix |
| ClaudeService.DropClosingFenceIsRsplit | app/services/claude_service.py:38 | dropping the final fence agrees with `rsplit("```", 1)[0]` on every text ending with a fence |
| ClaudeService.FenceRemovalDecomposes | app/services/claude_service.py:35-38 | the two fence steps drop only a prefix and a suffix |
| ClaudeService.CleanReply | app/services/claude_service.py:34-39 | the text handed to `json.loads` has no edge whitespace and is never longer than the reply |
| ClaudeService.CleanReplyIsSlice | app/services/claude_service.py:34-39 | the text handed to the parser is a contiguous piece of the raw reply |
| ClaudeService.CleanReplyUnfenced | app/services/claude_service.py:34-39 | a reply with no fence at either end reaches the parser as its trimmed self |
| ClaudeService.CleanReplyFenced | app/services/claude_service.py:34-39 | a reply of the form fence, language tag, newline, body, fence reaches the parser as the trimmed body, whatever the tag |
| ClaudeService.FencedReplyIsTrimmed | app/services/claude_service.py:34 | a reply that starts and ends with a fence has no edge whitespace to trim |
| ClaudeService.FenceLineDropped | app/services/claude_service.py:35-36 | the opening step removes exactly the fence and tag line |
| ClaudeService.ClosingFenceDropped | app/services/claude_service.py:37-38 | the closing step removes exactly the final fence |
| ClaudeService.CleanReplyFencedExample | app/services/claude_service.py:34-39 | the fenced reply of the JSON object `{"a":1}` reaches the parser as that object's text |
| ClaudeService.CleanReplyBareExample | app/services/claude_service.py:34-39 | the bare reply `{"a":1}` reaches the parser unchanged |
| ClaudeService.ParseJsonResponse | app/services/claude_service.py:29-39 | the parser is applied to the cleaned reply; its value is returned, or its failure becomes a `JSONDecodeError` with the parser's message |
| ClaudeService.UserPrompt | app/services/claude_service.py:68-160 | each of the four task prompts starts with a newline followed by the task's instructions, and ends with the document heading, the whole document and a newline |
| ClaudeService.UserPromptEmbeds | app/services/claude_service.py:68-160 | every task prompt contains the document verbatim; the quiz and flashcard prompts also contain the requested count's digits |
| ClaudeService.UserPromptCount | app/services/claude_service.py:68-160 | a reader of the prompt's "generate exactly" line gets back exactly the requested number of questions or cards; the mind-map and summary prompts have no such line |
| ClaudeService.GenerationRequest | app/services/claude_service.py:13-26 | a generation call sends exactly two messages, the task's system prompt and then its user prompt, with `max_tokens` 4096 and no streaming |
| ClaudeService.CallAi | app/services/claude_service.py:18-26 | the provider's reply is returned, and a client failure is raised |
| ClaudeService.Generate | app/services/claude_service.py:68-161 | the quiz, flashcard and mind-map replies go through the parser, whose failure is a `JSONDecodeError` carrying the parser's message; the summary reply is returned unparsed; a provider failure propagates |
| ClaudeService.TutorSystemPrompt | app/services/claude_service.py:173-181 | the tutor's system prompt contains the document verbatim |
| ClaudeService.StreamingSystemPrompt | app/services/claude_service.py:205-212 | the streaming tutor's system prompt contains the document verbatim |
| ClaudeService.CopyTurns | app/services/claude_service.py:184-185 | each prior turn becomes one message with the same role and content, in order |
| ClaudeService.Conversation | app/services/claude_service.py:183-185 | the conversation has 1 + n messages: the system prompt first, then the n turns in order |
| ClaudeService.ConversationRoundTrip | app/services/claude_service.py:213-215 | the prior turns can be read back from the assembled conversation exactly |
| ClaudeService.ChatRequest | app/services/claude_service.py:187-191 | the tutor call sends the assembled conversation with `max_tokens` 1024 and no streaming |
| ClaudeService.StreamRequest | app/services/claude_service.py:217-222 | the streaming call sends the assembled conversation with `max_tokens` 1024 and `stream=True` |
| ClaudeService.ChatWithTutor | app/services/claude_service.py:168-192 | the tutor returns the provider's reply unchanged, or raises its failure |
| ClaudeService.NonEmptyDeltas | app/services/claude_service.py:224-227 | only present, non-empty deltas are yielded, and never more of them than arrived |
| ClaudeService.NonEmptyDeltasAppend | app/services/claude_service.py:224-227 | the filter distributes over concatenation, so provider order is kept |
| ClaudeService.NonEmptyDeltasSingle | app/services/claude_service.py:226-227 | a single delta is yielded exactly when it is present and non-empty |
| ClaudeService.NonEmptyDeltasKeepText | app/services/claude_service.py:224-227 | the yielded fragments, joined, are exactly the text of all the deltas |
| ClaudeService.StreamTutorResponse | app/services/claude_service.py:199-227 | the stream yields exactly the present, non-empty deltas, one fragment each and in order; their concatenation is the provider's text, and the stream ends as the provider's stream ended |
| PdfService.PageText | app/services/pdf_service.py:27-29 | a page with text adds that text and a blank line; a page with `None` or empty text adds nothing |
| PdfService.FullText | app/services/pdf_service.py:24-29 | the full text is empty exactly when no page has text |
| PdfService.FullTextAppend | app/services/pdf_service.py:26-29 | reading further pages only appends to the text built so far |
| PdfService.FullTextSingle | app/services/pdf_service.py:28-29 | one page alone gives its text and a blank line, or nothing; with the append lemma this fixes the full text of any pages |
| PdfService.FullTextContainsPage | app/services/pdf_service.py:28-29 | every page with text appears in the full text, followed by a blank line |
| PdfService.Truncate | app/services/pdf_service.py:39-42 | text up to 40,000 characters is kept unchanged; longer text becomes its first 40,000 characters plus the marker |
| PdfService.TruncateIdempotent | app/services/pdf_service.py:40-42 | truncating an already truncated text changes nothing |
| PdfService.TruncateKeepsPrefix | app/services/pdf_service.py:40-42 | the first 40,000 characters of the text survive truncation, and a cut text ends with the marker |
| PdfService.Preview | app/services/pdf_service.py:49 | the preview is at most 300 characters long and has no edge whitespace |
| PdfService.PreviewIsSlice | app/services/pdf_service.py:49 | the first 300 characters are whitespace, then the preview, then whitespace; with the preview's lack of edge whitespace this makes it their `strip()` |
| PdfService.ExtractTextFromPdf | app/services/pdf_service.py:8-50 | a blank text raises the scanned-image message; otherwise the result passes `doc_id` and `filename` through, holds the truncated text, its length as `char_count`, and the preview |
| PdfService.ExtractedTextNotBlank | app/services/pdf_service.py:35-48 | an accepted document's text is neither empty nor all whitespace, even when the cut falls inside leading whitespace |
| UploadRouter.GetDocumentText | app/routers/upload.py:45-56 | the stored text is returned exactly when the id is present with non-empty text; otherwise the lookup is a 404 with the fixed detail |
| UploadRouter.GetDocumentTextValid | app/routers/upload.py:50-51 | in a store that holds only non-empty texts, the lookup fails exactly for ids never stored |
| UploadRouter.UploadPdf | app/routers/upload.py:14-42 | a name not ending in ".pdf" is a 400 and an extraction `ValueError` is a 422, both with the store unchanged; a success stores the text under the id and echoes the extraction's fields |
| UploadRouter.UploadPdfKeepsValid | app/routers/upload.py:35 | an upload never stores an empty text, so the store stays valid |
| UploadRouter.UploadThenLookup | app/routers/upload.py:35-56 | after a successful upload, looking up its id yields the extracted text, and every other id looks up as before |
| UploadRouter.UploadCharCount | app/routers/upload.py:37-42 | the response's `char_count` is the length of the stored text, which is positive and at most 40,000 plus the marker length |
| GenerateRouter.Respond | app/routers/generate.py:24-30 | a JSON error in a parsing task is a 500 with the fixed detail; any other exception, a missing field (`KeyError`), a non-dict reply (`TypeError`) or a failed validation is a 500 with its `str(e)`; a success echoes the id and returns exactly the designated field |
| GenerateRouter.Endpoint | app/routers/generate.py:15-76 | a missing document is a 404 with no request sent; otherwise exactly one generation request is sent and its outcome is mapped |
| GenerateRouter.GenerateQuiz | app/routers/generate.py:15-30 | a missing document is a 404 with no request; otherwise one quiz request for the given count, or 8 when it is left out |
| GenerateRouter.GenerateFlashcards | app/routers/generate.py:33-46 | a missing document is a 404 with no request; otherwise one flashcard request for the given count, or 15 when it is left out |
| GenerateRouter.GenerateMindmap | app/routers/generate.py:49-62 | a missing document is a 404 with no request; otherwise one mind-map request |
| GenerateRouter.GenerateSummary | app/routers/generate.py:65-76 | a missing document is a 404 with no request; otherwise one summary request |
| GenerateRouter.OmittedCountsAreDefaults | app/routers/generate.py:16-34 | leaving out `num_questions` or `num_cards` is the same as sending 8 or 15 |
| GenerateRouter.EndpointOutcome | app/routers/generate.py:22-30 | once the document is found, every failure is a 500: the provider's message, or the fixed detail for unparseable JSON; success returns the summary text or the field of the parsed reply |
| GenerateRouter.EndpointSendsCount | app/routers/generate.py:16-25 | the one request the quiz or flashcard endpoint sends asks for exactly the requested count, as read back from the prompt |
| GenerateRouter.RunInOrder | app/routers/generate.py:89-92 | the calls run in order and stop at the first one that raises; every call before it succeeded |
| GenerateRouter.RunInOrderAllOrNothing | app/routers/generate.py:88-102 | the run yields outputs exactly when every call succeeds |
| GenerateRouter.RunInOrderFirstFailure | app/routers/generate.py:88-92 | when call k is the first to raise, exactly k + 1 calls are made and the run reports that call's exception |
| GenerateRouter.AllRequests | app/routers/generate.py:89-92 | the requests sent are those of the first tasks, in the fixed order quiz, flashcards, mind map, summary |
| GenerateRouter.Assemble | app/routers/generate.py:94-100 | the body is built only when all three fields exist, and holds exactly those fields and the summary; otherwise the first missing field, in the order questions, flashcards, nodes, raises its exception |
| GenerateRouter.GenerateAll | app/routers/generate.py:79-102 | a missing document is a 404 with no request; otherwise requests go out in the fixed order, any failure is a 500, and a success took all four calls |
| GenerateRouter.SummaryIsPlain | app/services/claude_service.py:152-161 | a successful summary call returns the provider's reply as plain text |
| GenerateRouter.GenerateAllStopsAtInvalidQuiz | app/routers/generate.py:88-102 | an unparseable quiz reply stops `generate_all` after one request with a 500 showing the parser's message, where the quiz endpoint shows the fixed detail |
| GenerateRouter.GenerateAllInvalidQuiz | app/routers/generate.py:88-102 | an unparseable quiz reply makes `generate_all` a 500 showing the parser's message, after one request |
| GenerateRouter.QuizEndpointInvalidJson | app/routers/generate.py:24-28 | an unparseable quiz reply makes the quiz endpoint a 500 with the fixed detail |
| GenerateRouter.GenerateAllFirstFailure | app/routers/generate.py:88-102 | when call k is the first to raise, `generate_all` has sent exactly the first k + 1 requests and is a 500 showing that exception's `str(e)`, a JSON error included |
| GenerateRouter.GenerateAllFieldFailure | app/routers/generate.py:94-102 | when all four calls succeed but a field is missing, all four requests were sent and the answer is a 500 showing the first failing subscript's `str(e)` |
| GenerateRouter.GenerateAllAgreesWithEndpoints | app/routers/generate.py:94-100 | a successful `generate_all` returns what the four endpoints return, unvalidated and with the default counts |
| GenerateRouter.GenerateAllOutputs | app/routers/generate.py:89-100 | a successful `generate_all` body is assembled from the four outputs of its calls |
| GenerateRouter.EndpointReturns | app/routers/generate.py:26 | an output that has the task's field is answered with that field, when the validator accepts it |
| GenerateRouter.GenerateAllAllOrNothing | app/routers/generate.py:88-102 | `generate_all` succeeds exactly when all four calls succeed and the three replies have their fields |
| TutorRouter.Chat | app/routers/tutor.py:10-25 | a missing document is a 404; otherwise the provider's reply is returned unchanged, or its failure is a 500 with its message |
| TutorRouter.ChatIgnoresContext | app/routers/tutor.py:16-21 | the request's `context` field has no effect; the tutor is grounded in the stored text |
| TutorRouter.Event | app/routers/tutor.py:44 | an event is a `data: ` line closed by a blank line, eight characters longer than its payload |
| TutorRouter.FragmentEvents | app/routers/tutor.py:39-44 | there is one `data:` event per fragment, in order |
| TutorRouter.TokenEvents | app/routers/tutor.py:37-48 | n fragments give n + 1 events: the fragments' events, then `[DONE]` or `[ERROR]` with `str(e)` |
| TutorRouter.TerminatorReadsBack | app/routers/tutor.py:46-48 | the last event is read as the end of the stream: `[DONE]`, or `[ERROR]` with the exception's `str(e)` |
| TutorRouter.ChatStream | app/routers/tutor.py:28-57 | a missing document is a 404 before any event; otherwise the events frame the tutor's stream |
| TutorRouter.PayloadOfEvent | app/routers/tutor.py:44 | an event's payload reads back exactly |
| TutorRouter.PayloadIsEvent | app/routers/tutor.py:44 | a text with a payload is exactly the event of that payload |
| TutorRouter.Payloads | app/routers/tutor.py:39-44 | a run of events has payloads exactly when each event does, and they are read index by index |
| TutorRouter.PayloadsOfFragments | app/routers/tutor.py:39-44 | the fragments' events read back as the fragments |
| TutorRouter.ReadStreamRoundTrip | app/routers/tutor.py:37-48 | a reader given the events one by one recovers every fragment, in order, and how the stream ended |
| TutorRouter.ChatStreamShowsReply | app/routers/tutor.py:28-57 | for a reader given the events one by one, the fragments join to the provider's whole reply text and the ending is the provider's |
| TutorRouter.ExactlyOneTerminal | app/routers/tutor.py:39-48 | when no fragment is itself a marker, exactly one terminal event is sent, it is the last, and it reports the stream's ending |
| TutorRouter.DoneFragmentLooksFinal | app/routers/tutor.py:44-46 | a fragment whose text is `[DONE]` is sent as the same event that ends a completed stream |
| TutorRouter.BlankLineSplitsFragment | app/routers/tutor.py:44 | payloads are not escaped: a fragment containing a blank line and `data: ` puts the same bytes on the wire as two fragments |

## Left out

- The chat-completion client, its network calls and its configuration (API key, `MODEL`) are not modelled. Completions are function parameters. A client exception is represented by its message.
- `response.choices[0].message.content` being `None` is not modelled: replies are always text. An empty `choices` list in a stream chunk is an exception the stream raises, which the stream's `Raised` ending covers.
- The JSON grammar is not modelled: `json.loads` is a parameter. JSON numbers with a fraction are kept as their literal text, because floating point is not modelled.
- Pydantic's coercion and validation of response bodies are not modelled: `Validator` is a parameter. `generate_all` is not validated at all. An endpoint with a `response_model` answers with pydantic's normalised copy of the field, with unknown keys dropped and values coerced. The model answers with the field itself. So `GenerateRouter.Respond` returning exactly the field, and `GenerateRouter.GenerateAllAgreesWithEndpoints`, hold only because that normalisation is left out.
- PDF reading is not modelled: pdfplumber, the temporary file, `file.file.read()` and `os.unlink`. The per-page results of `page.extract_text()` are an input. An exception from the PDF reader, which escapes `upload_pdf` as an unhandled error, is not modelled.
- `uuid.uuid4` is not modelled: the document id is a parameter, and nothing claims ids are never reused. An upload under an existing id overwrites it, as the map update shows.
- The module-level `document_store` and concurrent requests are not modelled. The store is passed in and returned; requests are taken one at a time.
- `StreamingResponse` media type and headers are not modelled, nor client disconnects. The stream is the list of event strings it sends.
- The system prompts of the four generation tasks are cut to their first sentence. The output-shape instructions that follow are only text sent to the provider, and the code does not enforce them. The user prompts and tutor prompts are complete.
- `app/main.py` (CORS, router mounting, health check) and `app/models.py` (schemas) are not part of this model. Their shapes appear as datatypes.
- `max_tokens`, `model` and `stream=True` are recorded in the request. How the provider honours them is not modelled. The calls that leave `stream` out carry it as false, the client's default.
- TutorRouter.ReadStreamRoundTrip: the reader is handed the event boundaries, which the byte stream does not carry. A browser's line-based SSE parser splits a payload at every line break, so a fragment containing "\n" or "\r" is not recovered as one fragment, and `BlankLineSplitsFragment` shows two fragment lists with the same bytes. The same holds for `TutorRouter.ChatStreamShowsReply` and `TutorRouter.ExactlyOneTerminal`: a fragment such as "x\n\ndata: [DONE]" makes a browser dispatch a `[DONE]` event before the real terminal event. The line-based parser is not modelled.
