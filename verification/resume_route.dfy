/** The resume routes: `PUT /` stores pasted text, and `POST /upload` picks a reader for the
    uploaded file by its type and name, extracts its text and stores it. The readers themselves
    (PDF parsing, Word extraction, UTF-8 decoding) and the database are outside the model: what the
    chosen reader produced is a parameter, and storing is the response `Stored`. */
module ResumeRoute {
  import opened Wrappers
  import Text

  datatype Response =
    | Stored(content: string, fileName: Option<string>)
    | BadRequest(error: string)
    | ServerError(error: string)

  const ContentRequired: string := "Resume content is required"
  const NoFile: string := "No file uploaded"
  const PdfUnreadable: string :=
    "Could not read this PDF. Try saving as a different format (e.g. DOCX or TXT) or use a different PDF."
  const Unsupported: string := "Only PDF, DOCX, DOC, and TXT files are supported"
  const NoText: string :=
    "Could not extract any text from the file. The PDF may be image-only \U{2014} try copying text manually or using a DOCX/TXT file."
  const UploadFailed: string := "Upload failed. Please try again or use a different file format."

  /** `PUT /` with string content, or none: missing, empty or blank content is refused; otherwise
      the trimmed content is stored. */
  function PutResume(content: Option<string>): (r: Response)
    ensures r.Stored? || r == BadRequest(ContentRequired)
  {
    if content.None? || content.value == [] || Text.Trim(content.value) == [] then BadRequest(ContentRequired)
    else Stored(Text.Trim(content.value), None)
  }

  /** Content is stored exactly when it holds something other than white space. */
  lemma PutResumeStores(content: Option<string>)
    ensures PutResume(content).Stored? <==> content.Some? && !Text.AllSpace(content.value)
  {
    if content.Some? {
      Text.TrimShape(content.value);
    }
  }

  /** What is stored is the content without its surrounding white space: non-empty and already
      trimmed. */
  lemma PutResumeTrims(s: string)
    requires PutResume(Some(s)).Stored?
    ensures var c := PutResume(Some(s)).content;
      && c == Text.Trim(s) && c != [] && Text.Trim(c) == c
      && !Text.IsSpace(c[0]) && !Text.IsSpace(c[|c| - 1])
  {
    assert PutResume(Some(s)).content == Text.Trim(s);
    Text.TrimShape(s);
    Text.TrimIdempotent(s);
  }

  /** Storing pasted text again changes nothing. */
  lemma PutResumeIdempotent(content: Option<string>)
    requires PutResume(content).Stored?
    ensures PutResume(Some(PutResume(content).content)) == PutResume(content)
  {
    PutResumeTrims(content.value);
  }

  const PdfMimes: seq<string> := ["application/pdf", "application/x-pdf"]
  const WordMimes: seq<string> := [
    "application/vnd.openxmlformats-officedocument.wordprocessingml.document",
    "application/msword"]

  /** `name` ends in `ext`, letters compared without case. */
  predicate HasExtension(name: string, ext: string) {
    Text.EndsWith(Text.Lower(name), ext)
  }

  /** `isPdf`. */
  predicate IsPdf(mime: string, name: string) {
    mime in PdfMimes || HasExtension(name, ".pdf")
  }

  /** The two alternatives of the pattern `\.(docx?|doc)$` with the `i` flag: a dot, "doc", an
      optional "x", at the end; then a dot and "doc" at the end. */
  predicate WordPattern(name: string) {
    (HasExtension(name, ".doc") || HasExtension(name, ".docx")) || HasExtension(name, ".doc")
  }

  /** `isDocx`. */
  predicate IsDocx(mime: string, name: string) {
    mime in WordMimes || WordPattern(name)
  }

  /** The second alternative of the pattern matches nothing the first does not: a name passes
      exactly when it ends in ".doc" or ".docx", in any case. */
  lemma WordPatternMeaning(name: string)
    ensures WordPattern(name) <==> HasExtension(name, ".doc") || HasExtension(name, ".docx")
  {
  }

  datatype Format = Pdf | Word | PlainText | Unknown

  /** The reader the upload handler picks: PDF first, then Word, then plain text, by type or name. */
  function FormatOf(mime: string, name: string): Format {
    if IsPdf(mime, name) then Pdf
    else if IsDocx(mime, name) then Word
    else if mime == "text/plain" || HasExtension(name, ".txt") then PlainText
    else Unknown
  }

  /** Each format is chosen exactly when its test passes and no earlier one does. */
  lemma FormatOrder(mime: string, name: string)
    ensures FormatOf(mime, name) == Pdf <==> IsPdf(mime, name)
    ensures FormatOf(mime, name) == Word <==> !IsPdf(mime, name) && IsDocx(mime, name)
    ensures FormatOf(mime, name) == PlainText <==>
      !IsPdf(mime, name) && !IsDocx(mime, name) && (mime == "text/plain" || HasExtension(name, ".txt"))
  {
  }

  /** A name ending in ".pdf" is read as a PDF whatever type the client claimed, a Word type
      included. */
  lemma PdfNameWins(mime: string, name: string)
    requires Text.EndsWith(name, ".pdf")
    ensures FormatOf(mime, name) == Pdf
  {
    LowerKeepsLowerSuffix(name, ".pdf");
  }

  /** A text without capital letters: lower-casing leaves each of its characters alone. */
  predicate NoCapitals(ext: string) {
    forall i :: 0 <= i < |ext| ==> !('A' <= ext[i] <= 'Z')
  }

  /** Lower-casing leaves a suffix that is already lower case in place. */
  lemma LowerKeepsLowerSuffix(name: string, ext: string)
    requires Text.EndsWith(name, ext) && NoCapitals(ext)
    ensures Text.EndsWith(Text.Lower(name), ext)
  {
    var n := |name| - |ext|;
    var l := Text.Lower(name);
    assert l[n..] == ext by {
      forall i | 0 <= i < |ext| ensures l[n..][i] == ext[i] {
        assert name[n + i] == ext[i];
      }
    }
  }

  /** The choice depends on the name only up to the case of its letters. */
  lemma FormatIgnoresCase(mime: string, name: string, other: string)
    requires Text.Lower(name) == Text.Lower(other)
    ensures FormatOf(mime, name) == FormatOf(mime, other)
  {
  }

  /** Upper-casing a lower-case suffix and lower-casing the whole name gives the suffix back. */
  lemma LowerOfUpperSuffix(base: string, ext: string)
    requires NoCapitals(ext)
    ensures Text.EndsWith(Text.Lower(base + Text.Upper(ext)), ext)
  {
    var name := base + Text.Upper(ext);
    var n := |base|;
    var l := Text.Lower(name);
    assert l[n..] == ext by {
      forall i | 0 <= i < |ext| ensures l[n..][i] == ext[i] {
        assert name[n + i] == Text.UpperChar(ext[i]);
      }
    }
  }

  /** A name ends in an extension only if its last letter is the extension's. */
  lemma LastLetter(name: string, ext: string)
    requires ext != [] && HasExtension(name, ext)
    ensures Text.Lower(name)[|name| - 1] == ext[|ext| - 1]
  {
    var l := Text.Lower(name);
    assert l[|l| - |ext|..][|ext| - 1] == l[|l| - 1];
  }

  /** An upload whose type says nothing is read by its extension, in any case. */
  lemma FormatByExtension(base: string, ext: string)
    requires ext in [".pdf", ".doc", ".docx", ".txt"]
    ensures var f := FormatOf("application/octet-stream", base + Text.Upper(ext));
      f == (if ext == ".pdf" then Pdf else if ext == ".txt" then PlainText else Word)
  {
    var name := base + Text.Upper(ext);
    OctetStreamUntyped();
    assert NoCapitals(ext) && ext != [];
    LowerOfUpperSuffix(base, ext);
    if ext != ".pdf" {
      OtherExtension(name, ext, ".pdf");
    }
    if ext == ".txt" {
      OtherExtension(name, ext, ".doc");
      OtherExtension(name, ext, ".docx");
    }
  }

  /** The generic binary type is none of the types the handler recognises. */
  lemma OctetStreamUntyped()
    ensures var mime := "application/octet-stream";
      mime !in PdfMimes && mime !in WordMimes && mime != "text/plain"
  {
    var mime := "application/octet-stream";
    assert mime[12] == 'o';
  }

  /** Extensions with different last letters exclude each other. */
  lemma OtherExtension(name: string, ext: string, other: string)
    requires ext != [] && other != [] && ext[|ext| - 1] != other[|other| - 1]
    requires HasExtension(name, ext)
    ensures !HasExtension(name, other)
  {
    LastLetter(name, ext);
    if HasExtension(name, other) {
      LastLetter(name, other);
    }
  }

  /** The uploaded file: its claimed type and its original name, when the client sent one. */
  datatype UploadedFile = UploadedFile(mimetype: string, originalName: Option<string>)

  /** What the chosen reader produced: some text, no text at all (`result?.text ?? ""` for a PDF, an
      undefined `value` for Word, both read as blank), or an exception. */
  datatype Extraction = Extracted(text: Option<string>) | Threw

  /** The name the handler tests: `file.originalname || ""`. */
  function NameOf(file: UploadedFile): string {
    file.originalName.GetOr("")
  }

  /** Decoding a text file as UTF-8 always gives a string. */
  predicate ReaderCanProduce(file: UploadedFile, extraction: Extraction) {
    FormatOf(file.mimetype, NameOf(file)) == PlainText ==> extraction.Extracted? && extraction.text.Some?
  }

  /** `POST /upload`: no file, an unknown format, a PDF that cannot be read and a file without text
      are refused with 400; a Word reader that throws ends in the handler's own 500; otherwise the
      trimmed text is stored with the original name. */
  function Upload(file: Option<UploadedFile>, extraction: Extraction): (r: Response)
    requires file.Some? ==> ReaderCanProduce(file.value, extraction)
  {
    if file.None? then BadRequest(NoFile)
    else
      var f := file.value;
      var format := FormatOf(f.mimetype, NameOf(f));
      if format == Unknown then BadRequest(Unsupported)
      else if extraction.Threw? then (if format == Pdf then BadRequest(PdfUnreadable) else ServerError(UploadFailed))
      else
        var text := extraction.text.GetOr("");
        if Text.Trim(text) == [] then BadRequest(NoText)
        else Stored(Text.Trim(text), f.originalName)
  }

  /** The outcomes of an upload, case by case. */
  lemma UploadOutcomes(file: Option<UploadedFile>, extraction: Extraction)
    requires file.Some? ==> ReaderCanProduce(file.value, extraction)
    ensures file.None? <==> Upload(file, extraction) == BadRequest(NoFile)
    ensures file.Some? ==>
      (FormatOf(file.value.mimetype, NameOf(file.value)) == Unknown <==> Upload(file, extraction) == BadRequest(Unsupported))
    ensures Upload(file, extraction) == BadRequest(PdfUnreadable) <==>
      file.Some? && FormatOf(file.value.mimetype, NameOf(file.value)) == Pdf && extraction.Threw?
    ensures Upload(file, extraction).ServerError? <==>
      file.Some? && FormatOf(file.value.mimetype, NameOf(file.value)) == Word && extraction.Threw?
  {
  }

  /** Text is stored exactly when a known reader produced something other than white space, and
      then it is stored exactly as `PUT /` would store it, together with the file's name. */
  lemma UploadMatchesPut(file: Option<UploadedFile>, extraction: Extraction)
    requires file.Some? ==> ReaderCanProduce(file.value, extraction)
    ensures Upload(file, extraction).Stored? <==>
      && file.Some? && FormatOf(file.value.mimetype, NameOf(file.value)) != Unknown
      && extraction.Extracted? && PutResume(extraction.text).Stored?
    ensures Upload(file, extraction).Stored? ==>
      Upload(file, extraction) == Stored(PutResume(extraction.text).content, file.value.originalName)
  {
  }

  /** A readable file of blank text is refused as having no text, whatever its format. */
  lemma BlankUpload(file: UploadedFile, text: string)
    requires Text.AllSpace(text)
    requires FormatOf(file.mimetype, NameOf(file)) != Unknown
    ensures Upload(Some(file), Extracted(Some(text))) == BadRequest(NoText)
  {
    PutResumeStores(Some(text));
  }
}
