/** `extract_text_from_pdf`: join the text of the pages, reject a document
    with no text, cap its length, and describe it. Reading the PDF is not
    modelled: the pages arrive as what `page.extract_text()` returned for
    each, and the document id is a parameter. */
module PdfService {
  import opened Wrappers
  import opened Text

  const MaxChars := 40000
  const PreviewChars := 300
  const PageBreak := "\n\n"
  const TruncationMarker := "\n\n[Document truncated for processing]"
  const ScannedMessage := "Could not extract text from this PDF. It may be a scanned image."

  /** The dict the service returns for an extracted document. */
  datatype Extraction = Extraction(docId: string, filename: string, text: string, charCount: int, preview: string)

  /** What one page adds to the full text: its text and a blank line, or
      nothing when the page has no text (`None` or empty). */
  function PageText(page: Option<string>): (t: string)
    ensures HasText(page) ==> t == page.value + PageBreak
    ensures !HasText(page) ==> t == ""
  {
    match page
    case Some(t) => if t != "" then t + PageBreak else ""
    case None => ""
  }

  /** A page that contributes text. */
  predicate HasText(page: Option<string>) {
    page.Some? && page.value != ""
  }

  /** The pages loop: the pages with text, in order, each followed by a
      blank line. */
  function FullText(pages: seq<Option<string>>): (full: string)
    ensures full == "" <==> forall i | 0 <= i < |pages| :: !HasText(pages[i])
  {
    if |pages| == 0 then ""
    else
      var rest := FullText(pages[1..]);
      assert forall i | 1 <= i < |pages| :: pages[i] == pages[1..][i - 1];
      PageText(pages[0]) + rest
  }

  /** The text is accumulated page by page: reading more pages only appends. */
  lemma {:induction false} FullTextAppend(a: seq<Option<string>>, b: seq<Option<string>>)
    ensures FullText(a + b) == FullText(a) + FullText(b)
    decreases |a|
  {
    if |a| == 0 {
      assert a + b == b;
    } else {
      assert (a + b)[0] == a[0];
      assert (a + b)[1..] == a[1..] + b;
      FullTextAppend(a[1..], b);
    }
  }

  /** One page alone: its text and a blank line when it has text, nothing
      otherwise. With `FullTextAppend` this fixes the full text of any
      list of pages. */
  lemma FullTextSingle(page: Option<string>)
    ensures FullText([page]) == (if HasText(page) then page.value + PageBreak else "")
  {
    assert [page][1..] == [];
  }

  /** Every page with text appears in the full text, followed by its blank line. */
  lemma {:induction false} FullTextContainsPage(pages: seq<Option<string>>, i: nat)
    requires i < |pages| && HasText(pages[i])
    ensures Occurs(pages[i].value + PageBreak, FullText(pages))
  {
    var before, after := pages[..i], pages[i + 1..];
    assert pages == before + [pages[i]] + after;
    FullTextAppend(before + [pages[i]], after);
    FullTextAppend(before, [pages[i]]);
    assert [pages[i]][1..] == [];
    assert FullText([pages[i]]) == pages[i].value + PageBreak;
    OccursInConcat(FullText(before), pages[i].value + PageBreak, FullText(after));
  }

  /** `full_text[:MAX_CHARS]`, plus the marker when something was cut. */
  function Truncate(full: string): (text: string)
    ensures |full| <= MaxChars ==> text == full
    ensures |full| > MaxChars ==> text == full[..MaxChars] + TruncationMarker
    ensures |text| <= MaxChars + |TruncationMarker|
  {
    if |full| > MaxChars then full[..MaxChars] + TruncationMarker else full
  }

  /** Truncating twice cuts nothing more: a truncated text keeps its first
      `MaxChars` characters and the marker. */
  lemma TruncateIdempotent(full: string)
    ensures Truncate(Truncate(full)) == Truncate(full)
  {
    if |full| > MaxChars {
      var t := Truncate(full);
      assert t[..MaxChars] == full[..MaxChars];
    }
  }

  /** The original text up to the cap is recoverable from the truncated one. */
  lemma TruncateKeepsPrefix(full: string)
    ensures |full| <= MaxChars ==> Truncate(full) == full
    ensures |full| > MaxChars ==> Truncate(full)[..MaxChars] == full[..MaxChars]
    ensures |full| > MaxChars ==> EndsWith(Truncate(full), TruncationMarker)
  {
    if |full| > MaxChars {
      var t := Truncate(full);
      assert t[..MaxChars] == full[..MaxChars];
      assert t[|t| - |TruncationMarker|..] == TruncationMarker;
    }
  }

  /** `truncated_text[:300].strip()`. */
  function Preview(text: string): (p: string)
    ensures |p| <= PreviewChars
    ensures NoEdgeSpace(p)
  {
    var head := if |text| <= PreviewChars then text else text[..PreviewChars];
    Strip(head)
  }

  /** The preview is the first 300 characters of the text less only their
      leading and trailing whitespace; with `NoEdgeSpace` from `Preview`,
      `StripUnique` makes this split unique. */
  lemma PreviewIsSlice(text: string) returns (pre: string, post: string)
    ensures |text| <= PreviewChars ==> text == pre + Preview(text) + post
    ensures |text| > PreviewChars ==> text[..PreviewChars] == pre + Preview(text) + post
    ensures AllSpace(pre) && AllSpace(post)
    ensures |text| <= PreviewChars ==> Occurs(Preview(text), text)
    ensures |text| > PreviewChars ==> Occurs(Preview(text), text[..PreviewChars])
  {
    var head := if |text| <= PreviewChars then text else text[..PreviewChars];
    pre, post := StripDecomposes(head);
    OccursInConcat(pre, Strip(head), post);
  }

  /** `extract_text_from_pdf` after the pages have been read. A document whose
      text is blank is rejected with the `ValueError` message. */
  function ExtractTextFromPdf(docId: string, filename: string, pages: seq<Option<string>>): (r: Result<Extraction, string>)
    ensures r.Failure? <==> AllSpace(FullText(pages))
    ensures r.Failure? ==> r.error == ScannedMessage
    ensures r.Success? ==>
      && r.value.docId == docId
      && r.value.filename == filename
      && r.value.text == Truncate(FullText(pages))
      && r.value.charCount == |r.value.text|
      && r.value.preview == Preview(r.value.text)
  {
    var full := FullText(pages);
    StripBlank(full);
    if Strip(full) == "" then Failure(ScannedMessage)
    else
      var text := Truncate(full);
      Success(Extraction(docId, filename, text, |text|, Preview(text)))
  }

  /** An accepted document is never blank, even when the cap cuts it inside
      leading whitespace: the marker then carries text. */
  lemma ExtractedTextNotBlank(docId: string, filename: string, pages: seq<Option<string>>)
    requires ExtractTextFromPdf(docId, filename, pages).Success?
    ensures !AllSpace(ExtractTextFromPdf(docId, filename, pages).value.text)
    ensures ExtractTextFromPdf(docId, filename, pages).value.text != ""
  {
    var full := FullText(pages);
    var text := Truncate(full);
    if |full| > MaxChars {
      assert text[|text| - 1] == ']';
    }
  }
}
