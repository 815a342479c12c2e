/**
 * `PDFProcessor`: per input line, normalise the URL, download the document, extract its
 * text, detect its language and build a `PDFData` record, appending the records to
 * `data` in line order. The network, the PDF library, the language detector, the URL
 * validator and the clock are oracles collected in an `Environment`.
 */
module Extractor {
  import opened Wrappers
  import opened PyStrings
  import opened Urls
  import opened Records

  /** The body of an HTTP response, as written to the downloaded file. */
  type Bytes = seq<bv8>

  /**
   * The outside world a run depends on. Every call the pipeline makes is a fresh call,
   * so each oracle also receives the position `id` of the line being processed: the
   * same URL or text met on two lines may get two different answers.
   * - `fetch`: `requests.get(url).content`, `None` when the request raises;
   * - `write`: whether saving the body fetched from `url` succeeds, `false` when
   *   `open(path, 'wb')` or the write raises; the path is determined by `url`, since the
   *   output directory is fixed for the processor;
   * - `openDocument`: the page texts `fitz` reads from a file holding these bytes,
   *   `None` when it cannot open or read it;
   * - `detect`: `langdetect.detect`, `None` when it raises;
   * - `isHttpUrl`: whether pydantic accepts the string as an `AnyHttpUrl`;
   * - `clock`: the formatted wall-clock reading taken while record `id` is built.
   */
  datatype Environment = Environment(
    fetch: (nat, string) -> Option<Bytes>,
    write: (nat, string) -> bool,
    openDocument: (nat, Bytes) -> Option<seq<string>>,
    detect: (nat, string) -> Option<string>,
    isHttpUrl: string -> bool,
    clock: nat -> string)

  /** The page texts of a document joined in page order, with nothing between them. */
  function Concat(pages: seq<string>): (text: string)
  {
    if pages == [] then "" else Concat(pages[..|pages| - 1]) + Last(pages)
  }

  /** The total number of characters on the pages. */
  function TotalLength(pages: seq<string>): (n: nat)
  {
    if pages == [] then 0 else TotalLength(pages[..|pages| - 1]) + |Last(pages)|
  }

  /**
   * The extracted text is exactly as long as all page texts together: nothing is added
   * between or around the pages.
   */
  lemma {:induction false} ConcatLength(pages: seq<string>)
    ensures |Concat(pages)| == TotalLength(pages)
    decreases |pages|
  {
    if pages != [] {
      ConcatLength(pages[..|pages| - 1]);
    }
  }

  /** Concatenation distributes over splitting the page list. */
  lemma {:induction false} ConcatAppend(a: seq<string>, b: seq<string>)
    ensures Concat(a + b) == Concat(a) + Concat(b)
    decreases |b|
  {
    if b == [] {
      assert a + b == a;
    } else {
      var b' := b[..|b| - 1];
      assert (a + b)[..|a + b| - 1] == a + b';
      assert Last(a + b) == Last(b);
      ConcatAppend(a, b');
    }
  }

  /**
   * Page `k`'s text appears in the extracted text immediately after the texts of the
   * pages before it, so the result holds every page, in page order.
   */
  lemma {:induction false} ConcatPageAt(pages: seq<string>, k: nat)
    requires k < |pages|
    ensures
      var start := |Concat(pages[..k])|;
      && start + |pages[k]| <= |Concat(pages)|
      && Concat(pages)[start..start + |pages[k]|] == pages[k]
  {
    assert pages == pages[..k] + [pages[k]] + pages[k + 1..];
    ConcatAppend(pages[..k] + [pages[k]], pages[k + 1..]);
    assert (pages[..k] + [pages[k]])[..k] == pages[..k];
  }

  /** What `download_pdf` hands back: the path written and the bytes it now holds. */
  datatype Download = Download(path: string, content: Bytes)

  /**
   * The per-line pipeline of `process_pdf`, for the line at position `id`: normalise,
   * fetch, write the file, extract, detect, build. The first stage that raises decides
   * the error.
   */
  function ProcessLine(id: nat, line: string, env: Environment): (r: Result<PdfData, Error>)
  {
    var url := ProcessUrl(line);
    match env.fetch(id, url)
    case None => Err(TransportError)
    case Some(content) =>
      if !env.write(id, url) then Err(IOError)
      else
        match env.openDocument(id, content)
        case None => Err(ExtractionError)
        case Some(pages) =>
          var text := Concat(pages);
          match env.detect(id, text)
          case None => Err(ClassificationError)
          case Some(language) => NewPdfData(id, url, text, language, env.isHttpUrl, env.clock(id))
  }

  /**
   * The stages of a line raise in the order of the source: a failed request gives a
   * transport error, then a failed write an I/O error, an unopenable document an
   * extraction error, a failed detection a classification error, and a rejected record a
   * validation error. A line yields a record exactly when every stage succeeds; that
   * record carries `id`, the normalised line as URL, no manufacturer, the clock reading,
   * the fetched document's page texts in order, and the language detected from them.
   */
  lemma ProcessLineSpec(id: nat, line: string, env: Environment)
    ensures
      var r := ProcessLine(id, line, env);
      var url := ProcessUrl(line);
      var fetched := env.fetch(id, url);
      var document := if fetched.Some? then env.openDocument(id, fetched.value) else None;
      var text := if document.Some? then Concat(document.value) else "";
      var detected := env.detect(id, text);
      && (fetched.None? ==> r == Err(TransportError))
      && (fetched.Some? && !env.write(id, url) ==> r == Err(IOError))
      && (fetched.Some? && env.write(id, url) && document.None? ==> r == Err(ExtractionError))
      && (document.Some? && env.write(id, url) && detected.None? ==> r == Err(ClassificationError))
      && (document.Some? && env.write(id, url) && detected.Some? &&
            !(env.isHttpUrl(url) && IsSupportedLanguage(detected.value)) ==>
            r.Err? && r.error.ValidationError?)
      && (r.Ok? <==>
            && fetched.Some? && env.write(id, url) && document.Some? && detected.Some?
            && env.isHttpUrl(url) && IsSupportedLanguage(detected.value))
      && (r.Ok? ==>
            && r.value.id == id
            && r.value.url == url
            && r.value.text == text
            && r.value.language == detected.value
            && r.value.manufacturer == None
            && r.value.extractionDate == env.clock(id))
  {
  }

  /** How a run ends: every line processed, or aborted by the exception raised on `line`. */
  datatype Outcome = Completed | Aborted(line: nat, error: Error)

  /** The records a run appends and how it ends. */
  datatype RunResult = RunResult(records: seq<PdfData>, outcome: Outcome)

  /** The effect of `process_pdf` on `lines`: each line in order, stopping at the first failure. */
  function Run(lines: seq<string>, env: Environment): (r: RunResult)
    decreases |lines|
  {
    if lines == [] then RunResult([], Completed)
    else
      var prev := Run(lines[..|lines| - 1], env);
      if prev.outcome.Aborted? then prev
      else
        match ProcessLine(|lines| - 1, Last(lines), env)
        case Ok(rec) => RunResult(prev.records + [rec], Completed)
        case Err(e) => RunResult(prev.records, Aborted(|lines| - 1, e))
  }

  /**
   * A run appends one record per line, record `i` being line `i`'s pipeline result; it
   * completes exactly when every line succeeds, and when it aborts at line `k` it holds
   * the records of lines `0..k-1` and nothing else.
   */
  lemma {:induction false} RunSpec(lines: seq<string>, env: Environment)
    ensures var r := Run(lines, env);
      && (forall i :: 0 <= i < |r.records| ==>
            i < |lines| && ProcessLine(i, lines[i], env) == Ok(r.records[i]))
      && (r.outcome.Completed? <==> forall i :: 0 <= i < |lines| ==> ProcessLine(i, lines[i], env).Ok?)
      && (r.outcome.Completed? ==> |r.records| == |lines|)
      && (r.outcome.Aborted? ==>
            && r.outcome.line < |lines|
            && |r.records| == r.outcome.line
            && ProcessLine(r.outcome.line, lines[r.outcome.line], env) == Err(r.outcome.error))
    decreases |lines|
  {
    if lines != [] {
      var init := lines[..|lines| - 1];
      RunSpec(init, env);
      assert forall i :: 0 <= i < |init| ==> init[i] == lines[i];
    }
  }

  /** The records of a run carry their line position as id, the normalised line as URL, and pass validation. */
  lemma RunRecords(lines: seq<string>, env: Environment)
    ensures var r := Run(lines, env);
      forall i :: 0 <= i < |r.records| ==>
        && i < |lines|
        && r.records[i].id == i
        && r.records[i].url == ProcessUrl(lines[i])
        && IsValidRecord(r.records[i], env.isHttpUrl)
        && r.records[i].manufacturer == None
  {
    RunSpec(lines, env);
    forall i | 0 <= i < |lines| {
      ProcessLineSpec(i, lines[i], env);
    }
  }

  /**
   * Processing line `i` after a completed prefix either appends that line's record, or
   * aborts the whole run with that line's error.
   */
  lemma RunExtend(lines: seq<string>, i: nat, env: Environment)
    requires i < |lines|
    requires Run(lines[..i], env).outcome == Completed
    ensures ProcessLine(i, lines[i], env).Ok? ==>
      Run(lines[..i + 1], env) == RunResult(Run(lines[..i], env).records + [ProcessLine(i, lines[i], env).value], Completed)
    ensures ProcessLine(i, lines[i], env).Err? ==>
      Run(lines, env) == RunResult(Run(lines[..i], env).records, Aborted(i, ProcessLine(i, lines[i], env).error))
  {
    assert lines[..i + 1][..i] == lines[..i];
    if ProcessLine(i, lines[i], env).Err? {
      RunAbortIsFinal(lines, i + 1, env);
    }
  }

  /** Once a prefix of the lines aborts, the lines after it change nothing. */
  lemma {:induction false} RunAbortIsFinal(lines: seq<string>, k: nat, env: Environment)
    requires k <= |lines|
    requires Run(lines[..k], env).outcome.Aborted?
    ensures Run(lines, env) == Run(lines[..k], env)
    decreases |lines|
  {
    if k < |lines| {
      var init := lines[..|lines| - 1];
      assert init[..k] == lines[..k];
      RunAbortIsFinal(init, k, env);
    } else {
      assert lines[..k] == lines;
    }
  }

  /** The processor of `manual_extractor.py`; the configuration is fixed at construction. */
  class PdfProcessor {
    const inputFile: string
    const outputDir: string
    const outputJsonPath: string
    /** The records accumulated so far, in the order they were appended. */
    var data: seq<PdfData>

    /** `__init__`: record the configuration and start with no records. */
    constructor (inputFile: string, outputDir: string, outputJsonPath: string)
      ensures this.inputFile == inputFile
      ensures this.outputDir == outputDir
      ensures this.outputJsonPath == outputJsonPath
      ensures data == []
    {
      this.inputFile := inputFile;
      this.outputDir := outputDir;
      this.outputJsonPath := outputJsonPath;
      data := [];
    }

    /**
     * `download_pdf`, for the line at position `id`: always fetches (there is no cache
     * lookup); a failed request raises; otherwise the body is written to the output
     * directory under the URL's last path segment, and a failed write raises.
     */
    function DownloadPdf(id: nat, url: string, env: Environment): (r: Result<Download, Error>)
      ensures env.fetch(id, url).None? ==> r == Err(TransportError)
      ensures env.fetch(id, url).Some? ==> r.Ok? || r == Err(IOError)
      ensures r == Err(IOError) ==> !env.write(id, url)
      ensures r.Ok? ==>
        && env.fetch(id, url) == Some(r.value.content)
        && env.write(id, url)
        && outputDir <= r.value.path
        && FileName(r.value.path) == FileName(url)
        && r.value.path ==
             if outputDir == [] || outputDir[|outputDir| - 1] == '/' then outputDir + FileName(url)
             else outputDir + "/" + FileName(url)
    {
      match env.fetch(id, url)
      case None => Err(TransportError)
      case Some(content) =>
        if env.write(id, url) then Ok(Download(PathJoin(outputDir, FileName(url)), content))
        else Err(IOError)
    }

    /**
     * `extract_text`, for the line at position `id`: open the downloaded document and
     * append each page's text in page order; a document that cannot be opened raises.
     */
    method ExtractText(id: nat, content: Bytes, openDocument: (nat, Bytes) -> Option<seq<string>>)
      returns (r: Result<string, Error>)
      ensures openDocument(id, content).None? ==> r == Err(ExtractionError)
      ensures openDocument(id, content).Some? ==> r == Ok(Concat(openDocument(id, content).value))
    {
      match openDocument(id, content)
      case None =>
        r := Err(ExtractionError);
      case Some(pages) =>
        var text := "";
        for i := 0 to |pages|
          invariant text == Concat(pages[..i])
        {
          assert pages[..i + 1][..i] == pages[..i];
          text := text + pages[i];
        }
        assert pages[..|pages|] == pages;
        r := Ok(text);
    }

    /**
     * One iteration of `process_pdf`'s loop, up to the append: normalise the line,
     * download, extract, detect and build the record for position `id`.
     */
    method ProcessEntry(id: nat, line: string, env: Environment) returns (r: Result<PdfData, Error>)
      ensures r == ProcessLine(id, line, env)
    {
      var processedUrl := ProcessUrl(line);
      var download := DownloadPdf(id, processedUrl, env);
      if download.Err? {
        return Err(download.error);
      }
      var content := download.value.content;
      var text := ExtractText(id, content, env.openDocument);
      if text.Err? {
        return Err(text.error);
      }
      var language := env.detect(id, text.value);
      if language.None? {
        return Err(ClassificationError);
      }
      r := NewPdfData(id, processedUrl, text.value, language.value, env.isHttpUrl, env.clock(id));
    }

    /**
     * `process_pdf`: run the pipeline on every line in order, with the line's position as
     * id, appending each record to `data`; the first failure ends the run, keeping the
     * records appended before it.
     */
    method ProcessPdf(lines: seq<string>, env: Environment) returns (outcome: Outcome)
      modifies this
      ensures data == old(data) + Run(lines, env).records
      ensures outcome == Run(lines, env).outcome
    {
      var i := 0;
      while i < |lines|
        invariant 0 <= i <= |lines|
        invariant Run(lines[..i], env).outcome == Completed
        invariant data == old(data) + Run(lines[..i], env).records
      {
        var pdfData := ProcessEntry(i, lines[i], env);
        RunExtend(lines, i, env);
        if pdfData.Err? {
          outcome := Aborted(i, pdfData.error);
          return;
        }
        data := data + [pdfData.value];
        i := i + 1;
      }
      assert lines[..i] == lines;
      outcome := Completed;
    }
  }

  /**
   * The module-level script: build a processor and run `process_pdf` over the input
   * lines (saving the JSON is left out). On a fresh processor the records are exactly
   * those of the run: one per line on success, those of lines `0..k-1` on failure at `k`.
   */
  method ExtractAll(inputFile: string, outputDir: string, outputJsonPath: string,
                    lines: seq<string>, env: Environment)
    returns (records: seq<PdfData>, outcome: Outcome)
    ensures outcome.Completed? ==> |records| == |lines|
    ensures outcome.Aborted? ==>
      && outcome.line < |lines|
      && |records| == outcome.line
      && ProcessLine(outcome.line, lines[outcome.line], env) == Err(outcome.error)
    ensures forall i :: 0 <= i < |records| ==>
      && i < |lines|
      && records[i].id == i
      && records[i].url == ProcessUrl(lines[i])
      && IsValidRecord(records[i], env.isHttpUrl)
      && ProcessLine(i, lines[i], env) == Ok(records[i])
  {
    var processor := new PdfProcessor(inputFile, outputDir, outputJsonPath);
    outcome := processor.ProcessPdf(lines, env);
    records := processor.data;
    ghost var run := Run(lines, env);
    assert records == run.records && outcome == run.outcome;
    RunSpec(lines, env);
    RunRecords(lines, env);
  }
}
