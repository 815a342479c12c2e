# PDF manual extractor — a Dafny model

This project models `manual_extractor.py`, a script that reads a list of PDF manual URLs,
downloads each document, extracts its text page by page, detects the text's language and
collects one validated `PDFData` record per line in `PDFProcessor.data`.

The model keeps the deterministic logic and proves what it guarantees:

- `wrappers.dfy` (`Wrappers`): `Option` and `Result`, for Python's `None` and raised exceptions.
- `pystrings.dfy` (`PyStrings`): the Python string operations the script relies on.
  These are `str.find`, the slice `s[:stop]` and `str.split`, with `sep.join` as the inverse of `split`.
- `urls.dfy` (`Urls`): `process_url`, the file name `url.split("/")[-1]` and `os.path.join`.
- `records.dfy` (`Records`): the `PDFData` record, the validation done when it is built, and the error kinds.
- `extractor.dfy` (`Extractor`): the class `PdfProcessor` with its `data` field.
  It holds `extract_text` as a loop and `process_pdf` as a loop that appends to `data`.
  Beside the class are the specification functions `Concat`, `ProcessLine` and `Run`, and the script's top level as `ExtractAll`.

The outside world is an `Environment` of oracles:

- `fetch` stands for the HTTP request.
- `write` stands for opening and writing the downloaded file.
- `openDocument` stands for PyMuPDF reading the page texts of the downloaded bytes.
- `detect` stands for `langdetect`.
- `isHttpUrl` stands for pydantic's `AnyHttpUrl` check.
- `clock` stands for the timestamp default factory.

Each call the script makes is a fresh call, so `fetch`, `write`, `openDocument`, `detect` and `clock` also receive the position of the line being processed. The same URL or text seen on two lines can therefore get two different answers, for example a timeout on the second request or another detected language.

`process_url` is modelled exactly as written. When `.pdf` is absent, `find` returns -1.
The slice bound is then 3, so the result is the first three characters of the line.
`Urls.ProcessUrl` states this case outright, and the rest of the model uses it unchanged.

`download_pdf` has no cache lookup: it fetches every time, even if the file already exists.
The model follows the code. `DownloadPdf` fails with a transport error when the request fails, and with an I/O error when writing the file fails. It never skips the fetch.

## Model

| member | source | states |
|---|---|---|
| PyStrings.Find | manual_extractor.py:32 | `find` gives -1 exactly when `.pdf` does not occur. Otherwise it gives the lowest index at which it occurs. |
| PyStrings.SliceTo | manual_extractor.py:33 | `s[:stop]` is always a prefix of `s`, of length `min(stop, len)`. A negative bound counts from the end and is clamped at 0, so the slice never fails. |
| PyStrings.Split | manual_extractor.py:37 | `split("/")` always yields at least one piece. |
| PyStrings.JoinSplit | manual_extractor.py:37 | Joining the pieces of `split` with the separator gives back the original string. |
| PyStrings.SplitPiecesFree | manual_extractor.py:37 | No piece produced by `split` contains the separator. |
| Urls.ProcessUrl | manual_extractor.py:31-33 | The result is a prefix of the line. If `.pdf` occurs, the result ends with it, at its first occurrence. If it does not occur, the result is the first `min(3, len)` characters. |
| Urls.ProcessUrlIdempotent | manual_extractor.py:31-33 | Normalising an already normalised URL returns it unchanged, whether or not it has the marker. |
| Urls.ProcessUrlDropsTail | manual_extractor.py:32-33 | Take a string whose only `.pdf` is at its end. With any tail appended, such as the `\n` left by line iteration, normalisation returns that string. |
| Urls.FileName | manual_extractor.py:37 | The file name has no `/` and is a suffix of the URL. It is the whole URL when there is no `/`. Otherwise the URL is a prefix, then `/`, then the name. |
| Urls.PathJoin | manual_extractor.py:38 | `os.path.join(dir, name)` is `name` for an absolute name. Otherwise it is `dir + name` when `dir` is empty or ends with `/`, and `dir + "/" + name` in every other case. For a name without `/`, the last segment of the result is `name`. |
| Records.NewPdfData | manual_extractor.py:14-20 | Construction succeeds exactly when the URL validates and the language is `"de"` or `"en"`. On success the fields are the inputs, with `manufacturer` `None` by default. On failure one validation error names exactly the failing fields. |
| Extractor.ConcatAppend | manual_extractor.py:43-48 | The text of two page runs is the concatenation of their texts. |
| Extractor.ConcatLength | manual_extractor.py:43-48 | The extracted text is exactly as long as all page texts together, so nothing is inserted between or around pages. |
| Extractor.ConcatPageAt | manual_extractor.py:43-48 | Each page's text appears in the extracted text directly after the texts of the pages before it. So all pages appear in page order, with no separators. |
| Extractor.ProcessLineSpec | manual_extractor.py:61-73 | The stages raise in source order: a failed request gives a transport error, a failed write an I/O error, an unopenable document an extraction error, a failed detection a classification error, and a rejected record a validation error. A line yields a record exactly when every stage succeeds, the URL validates and the detected language is `de` or `en`. That record has id `id`, the normalised line as URL, the page concatenation of the fetched document as text, the detected language, no manufacturer and the clock reading. |
| Extractor.RunSpec | manual_extractor.py:58-74 | Record `i` is line `i`'s pipeline result. The run completes exactly when every line succeeds, and then holds one record per line. If it aborts at line `k`, it holds exactly the records of lines `0..k-1`, and line `k` raised the reported error. |
| Extractor.RunRecords | manual_extractor.py:60-74 | Each record's id equals its line position, and its URL is that line normalised. It has a valid URL, a supported language and no manufacturer. |
| Extractor.RunExtend | manual_extractor.py:60-74 | Processing one more line after a completed prefix either appends that line's record or aborts with that line's error. |
| Extractor.RunAbortIsFinal | manual_extractor.py:58-74 | Once a prefix of the lines aborts, the remaining lines add nothing. |
| Extractor.PdfProcessor.constructor | manual_extractor.py:23-29 | A new processor keeps its configuration and starts with empty `data`. |
| Extractor.PdfProcessor.DownloadPdf | manual_extractor.py:35-41 | A failed request raises a transport error, even if the file is already present: there is no cache hit. After a successful request, the download fails only with an I/O error, when the write fails. On success the saved content is the response body. The path is the output directory joined with the URL's file name: `dir + "/" + name`, or `dir + name` when `dir` is empty or ends with `/`. |
| Extractor.PdfProcessor.ExtractText | manual_extractor.py:43-48 | The page loop returns the ordered concatenation of page texts, `""` for no pages. A document that cannot be opened raises an extraction error. |
| Extractor.PdfProcessor.ProcessEntry | manual_extractor.py:61-73 | One loop iteration (normalise, download and write, extract, detect, build) yields exactly the per-line pipeline result, error included. |
| Extractor.PdfProcessor.ProcessPdf | manual_extractor.py:58-74 | `data` becomes its old value followed by the run's records, and the outcome is the run's outcome. So on failure only the records of the earlier lines are appended. |
| Extractor.ExtractAll | manual_extractor.py:84-85 | On a fresh processor: after success there is one record per line; after a failure at `k` there are exactly `k` records. Record `i` has id `i`, the normalised line `i` as URL, passes validation, and is line `i`'s pipeline result. |

## Left out

- Network access (`requests.get`) is the `fetch` oracle. Any exception it raises, including one for a truncated URL such as `htt`, is a `TransportError`.
- The bytes written to disk are not modelled. Only whether the write succeeds is modelled, through the `write` oracle; a failure, for example an over-long file name, is an `IOError`. `DownloadPdf` returns the path together with the bytes. `extract_text` opens the file right after it is written, so it reads exactly those bytes, and `openDocument` is applied to them.
- The file-system state of the output directory is not modelled. This covers its creation in `__init__` and files left by earlier runs.
- PDF parsing (`fitz.open`, `page.get_text`) is the `openDocument` oracle, which returns page texts. Releasing the document handle is not modelled.
- Language detection (`langdetect.detect`) is the `detect` oracle. `identify_language` only forwards to it, so it is inlined into the pipeline.
- `os.path.join` is modelled with its POSIX behaviour in `Urls.PathJoin`, which inserts `/`. On Windows it inserts `\`, and the last segment of the path would then not be the URL's file name as `DownloadPdf` states.
- The `write` oracle is keyed by the URL rather than by the path. This loses nothing, because the path is determined by the URL once the output directory is fixed.
- Pydantic's `AnyHttpUrl` check is the `isHttpUrl` predicate. URL syntax is not modelled.
- Records store the normalised URL string as given. Any normalisation pydantic applies to the URL object it stores is not modelled.
- `extraction_date` is the `clock` oracle's reading for the record's id. Its `DD.MM.YYYY HH:MM:SS` format is not modelled.
- Reading the input file is not modelled. Its lines, as produced by iterating over the file (terminators included), are the `lines` parameter.
- `save_to_json` and the JSON serialisation are file output and are not modelled.
- The commented-out manufacturer extraction is not modelled, because it is dead code.
