/**
 * The response classifier of `x402_invoke.ts` (lines 125-143): by the
 * `content-type` header, first match wins: JSON, then image or octet-stream
 * (saved to a temporary file and described by path, type and size), then text.
 * Reading the body, the clock, the random suffix and the temporary directory are
 * the platform's and come in as parameters.
 */
module X402Response {
  import opened Wrappers
  import opened Text

  /** The three ways a response body is reported. */
  datatype BodyKind = JsonKind | FileKind | TextKind

  /**
   * A response as the fetch client returns it. `json` is what `response.json()`
   * yields, or the message of the error it throws, and `text` what
   * `response.text()` yields.
   */
  datatype HttpResponse<J> = HttpResponse(status: int, headers: seq<(string, string)>,
                                          contentType: Option<string>, payload: seq<bv8>,
                                          json: Result<J>, text: string)

  /** The `body` field of the output document. */
  datatype ResponseBody<J> =
    | JsonBody(value: J)
    | SavedFile(filePath: string, contentType: string, bytes: nat)
    | TextBody(text: string)

  /** The one file the tool may write: where, and which bytes. */
  datatype FileWrite = FileWrite(path: string, data: seq<bv8>)

  /** A classified body, with the file written for it, if any. */
  datatype Reading<J> = Reading(body: ResponseBody<J>, written: Option<FileWrite>)

  /** `response.headers.get('content-type') || ''`. */
  function ContentTypeOf(header: Option<string>): string {
    match header
    case Some(v) => v
    case None => ""
  }

  /** `contentType.includes('image/')`. */
  predicate IsImage(ct: string) {
    Contains(ct, "image/")
  }

  /**
   * The dispatch on the content type, in the source's order of checks, stated by
   * substring occurrence: JSON whenever `application/json` occurs, even beside an
   * image type; a file when `image/` or `application/octet-stream` occurs and
   * `application/json` does not; text otherwise.
   */
  function Classify(ct: string): (kind: BodyKind)
    ensures kind == JsonKind <==> exists i :: OccursAt(ct, "application/json", i)
    ensures kind == FileKind <==>
      && (forall i :: !OccursAt(ct, "application/json", i))
      && ((exists i :: OccursAt(ct, "image/", i)) || (exists i :: OccursAt(ct, "application/octet-stream", i)))
    ensures kind == TextKind <==>
      forall i :: !OccursAt(ct, "application/json", i) && !OccursAt(ct, "image/", i)
                  && !OccursAt(ct, "application/octet-stream", i)
  {
    ContainsOccurs(ct, "application/json");
    ContainsOccurs(ct, "image/");
    ContainsOccurs(ct, "application/octet-stream");
    if Contains(ct, "application/json") then JsonKind
    else if IsImage(ct) || Contains(ct, "application/octet-stream") then FileKind
    else TextKind
  }

  /**
   * `isImage ? contentType.split('/')[1]?.split(';')[0] || 'bin' : 'bin'`: for an
   * image, the text after the first `/` up to the next `/` or `;`, or `bin` when
   * that is empty; always `bin` for other binary types.
   */
  function Extension(ct: string): (ext: string)
    ensures ext != "" && '/' !in ext && ';' !in ext
    ensures !IsImage(ct) ==> ext == "bin"
  {
    if !IsImage(ct) then "bin"
    else
      var parts := Split(ct, '/');
      if |parts| < 2 then "bin"
      else
        var sub := Split(parts[1], ';')[0];
        SplitPieces(parts[1], ';');
        if sub == "" then "bin" else sub
  }

  /** The extension of an image type, stated with `Before`/`After` instead of `split`. */
  lemma ImageExtension(ct: string)
    requires IsImage(ct)
    ensures '/' in ct
    ensures var seg := Before(Before(After(ct, '/'), '/'), ';');
      Extension(ct) == if seg == "" then "bin" else seg
  {
    ContainsOccurs(ct, "image/");
    var i :| OccursAt(ct, "image/", i);
    assert ct[i + 5] == "image/"[5];
    SplitPieces(ct, '/');
    var rest := After(ct, '/');
    SplitPieces(Before(rest, '/'), ';');
  }

  /** `x402_{image|binary}_<epoch-ms>_<random>.<ext>`. */
  function FileName(isImage: bool, nowMs: string, suffix: string, ext: string): string {
    "x402_" + (if isImage then "image" else "binary") + "_" + nowMs + "_" + suffix + "." + ext
  }

  /**
   * Classifies and reads one response. A JSON body that fails to parse is a
   * runtime error carrying the parser's message; a binary body is written to a file under `tmpDir` whose size
   * is reported; anything else is text.
   */
  function ReadResponse<J>(resp: HttpResponse<J>, tmpDir: string, nowMs: string, suffix: string): (r: Result<Reading<J>>)
    ensures var ct := ContentTypeOf(resp.contentType);
      && (r.Failure? <==> Classify(ct) == JsonKind && resp.json.Failure?)
      && (r.Failure? ==> r.message == resp.json.message)
      && (r.Success? && Classify(ct) == JsonKind ==> r.value == Reading(JsonBody(resp.json.value), None))
      && (Classify(ct) == FileKind ==>
            && r.Success? && r.value.body.SavedFile?
            && r.value.body.bytes == |resp.payload|
            && r.value.body.contentType == ct
            && r.value.written == Some(FileWrite(r.value.body.filePath, resp.payload))
            && EndsWith(r.value.body.filePath, "." + Extension(ct)))
      && (Classify(ct) == TextKind ==> r == Success(Reading(TextBody(resp.text), None)))
  {
    var ct := ContentTypeOf(resp.contentType);
    match Classify(ct)
    case JsonKind =>
      (match resp.json
       case Success(v) => Success(Reading(JsonBody(v), None))
       case Failure(message) => Failure(message))
    case FileKind =>
      var ext := Extension(ct);
      var path := tmpDir + "/" + FileName(IsImage(ct), nowMs, suffix, ext);
      assert path[|path| - |"." + ext|..] == "." + ext;
      Success(Reading(SavedFile(path, ct, |resp.payload|), Some(FileWrite(path, resp.payload))))
    case TextKind => Success(Reading(TextBody(resp.text), None))
  }

  /** `image/png` is an image type and not a JSON one. */
  lemma PngIsImage()
    ensures IsImage("image/png") && !Contains("image/png", "application/json")
  {
    assert OccursAt("image/png", "image/", 0);
    ContainsOccurs("image/png", "image/");
    ContainsOccurs("image/png", "application/json");
  }

  /** For `<type>/<subtype>` with a plain subtype, the extension is the subtype. */
  lemma SubtypeExtension(kind: string, subtype: string)
    requires '/' !in kind && '/' !in subtype && ';' !in subtype && subtype != ""
    requires IsImage(kind + ['/'] + subtype)
    ensures Extension(kind + ['/'] + subtype) == subtype
  {
    ImageExtension(kind + ['/'] + subtype);
    BeforeAfterJoin(kind, '/', subtype);
  }

  /** The extension of `image/png` is `png`. */
  lemma PngExtension()
    ensures Extension("image/png") == "png"
  {
    PngIsImage();
    assert "image/png" == "image" + ['/'] + "png";
    SubtypeExtension("image", "png");
  }

  /**
   * An image response whose type is `<kind>/<subtype>`, with a plain subtype and
   * no JSON type in it, is saved under a name ending in `.<subtype>`, with its
   * bytes counted and written as received.
   */
  lemma ImageIsSaved<J>(resp: HttpResponse<J>, tmpDir: string, nowMs: string, suffix: string,
                        kind: string, subtype: string)
    requires '/' !in kind && '/' !in subtype && ';' !in subtype && subtype != ""
    requires resp.contentType == Some(kind + ['/'] + subtype)
    requires IsImage(kind + ['/'] + subtype) && !Contains(kind + ['/'] + subtype, "application/json")
    ensures var r := ReadResponse(resp, tmpDir, nowMs, suffix);
      && r.Success?
      && r.value.body.SavedFile?
      && EndsWith(r.value.body.filePath, "." + subtype)
      && r.value.body.contentType == kind + ['/'] + subtype
      && r.value.body.bytes == |resp.payload|
      && r.value.written == Some(FileWrite(r.value.body.filePath, resp.payload))
  {
    SubtypeExtension(kind, subtype);
  }
}
