/** The upload router: the in-memory document store, `upload_pdf` and
    `get_document_text`. The store is passed in and returned rather than
    held in a module-level dict. */
module UploadRouter {
  import opened Wrappers
  import opened Text
  import opened Exceptions
  import opened PdfService

  /** `document_store`: document id to extracted text. */
  type Store = map<string, string>

  const PdfSuffix := ".pdf"
  const OnlyPdfDetail := "Only PDF files are supported."
  const NotFoundDetail := "Document not found. Please upload your PDF first."

  /** An uploaded file: its name and what each of its pages yields as text. */
  datatype UploadedFile = UploadedFile(filename: string, pages: seq<Option<string>>)

  /** The `UploadResponse` body. */
  datatype UploadResponse = UploadResponse(docId: string, filename: string, charCount: int, preview: string)

  /** What an upload request produces, and the store afterwards. */
  datatype Uploaded = Uploaded(response: Result<UploadResponse, HttpError>, store: Store)

  /** The store holds only texts a lookup will hand out. */
  predicate Valid(store: Store) {
    forall id | id in store :: store[id] != ""
  }

  /** `get_document_text`: a missing id and an empty text are both "not found". */
  function GetDocumentText(store: Store, docId: string): (r: Result<string, HttpError>)
    ensures r.Success? <==> docId in store && store[docId] != ""
    ensures r.Success? ==> r.value == store[docId]
    ensures r.Failure? ==> r.error == HttpError(404, NotFoundDetail)
  {
    if docId in store && store[docId] != "" then Success(store[docId])
    else Failure(HttpError(404, NotFoundDetail))
  }

  /** In a valid store, a lookup fails exactly for the ids never stored. */
  lemma GetDocumentTextValid(store: Store, docId: string)
    requires Valid(store)
    ensures GetDocumentText(store, docId).Success? <==> docId in store
  {
  }

  /** `upload_pdf`, with `docId` the fresh id the extraction draws. The name
      check is case-sensitive and comes before any reading; a blank document
      is a 422 carrying the extraction's message. Only a success stores. */
  function UploadPdf(store: Store, file: UploadedFile, docId: string): (u: Uploaded)
    ensures !EndsWith(file.filename, PdfSuffix) ==>
      u == Uploaded(Failure(HttpError(400, OnlyPdfDetail)), store)
    ensures EndsWith(file.filename, PdfSuffix) && ExtractTextFromPdf(docId, file.filename, file.pages).Failure? ==>
      u == Uploaded(Failure(HttpError(422, ScannedMessage)), store)
    ensures u.response.Success? <==>
      EndsWith(file.filename, PdfSuffix) && ExtractTextFromPdf(docId, file.filename, file.pages).Success?
    ensures u.response.Success? ==>
      var x := ExtractTextFromPdf(docId, file.filename, file.pages).value;
      && u.store == store[docId := x.text]
      && u.response.value == UploadResponse(docId, file.filename, |x.text|, x.preview)
  {
    if !EndsWith(file.filename, PdfSuffix) then
      Uploaded(Failure(HttpError(400, OnlyPdfDetail)), store)
    else
      match ExtractTextFromPdf(docId, file.filename, file.pages)
      case Failure(message) => Uploaded(Failure(HttpError(422, message)), store)
      case Success(x) =>
        Uploaded(Success(UploadResponse(x.docId, x.filename, x.charCount, x.preview)), store[x.docId := x.text])
  }

  /** Uploading keeps the store valid: what it stores is never blank. */
  lemma UploadPdfKeepsValid(store: Store, file: UploadedFile, docId: string)
    requires Valid(store)
    ensures Valid(UploadPdf(store, file, docId).store)
  {
    if UploadPdf(store, file, docId).response.Success? {
      ExtractedTextNotBlank(docId, file.filename, file.pages);
    }
  }

  /** A successful upload is found again under its id, with the stored text;
      every other id looks up as before. */
  lemma UploadThenLookup(store: Store, file: UploadedFile, docId: string, other: string)
    requires UploadPdf(store, file, docId).response.Success?
    ensures var after := UploadPdf(store, file, docId).store;
      && GetDocumentText(after, docId) == Success(Truncate(FullText(file.pages)))
      && (other != docId ==> GetDocumentText(after, other) == GetDocumentText(store, other))
  {
    ExtractedTextNotBlank(docId, file.filename, file.pages);
  }

  /** The text a successful upload stores is as long as the response says. */
  lemma UploadCharCount(store: Store, file: UploadedFile, docId: string)
    requires UploadPdf(store, file, docId).response.Success?
    ensures var u := UploadPdf(store, file, docId);
      && u.response.value.charCount == |u.store[docId]|
      && 0 < u.response.value.charCount <= MaxChars + |TruncationMarker|
  {
    ExtractedTextNotBlank(docId, file.filename, file.pages);
  }
}
