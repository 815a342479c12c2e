/**
 * The `PDFData` record and the validation its construction performs, together with the
 * exceptions a run of the processor can raise.
 */
module Records {
  import opened Wrappers

  /** The fields of `PDFData` whose validation can reject a value. */
  datatype Field = UrlField | LanguageField

  /** The exceptions that end a run: one per stage of the per-line pipeline. */
  datatype Error =
    | TransportError              // `requests.get` raised
    | IOError                     // writing the downloaded file raised
    | ExtractionError             // `fitz.open` could not open or read the document
    | ClassificationError         // `langdetect.detect` raised
    | ValidationError(fields: seq<Field>)  // `PDFData(...)` rejected these fields

  /** One extracted document. `manufacturer` is carried but never set by the pipeline. */
  datatype PdfData = PdfData(
    id: int,
    url: string,
    text: string,
    language: string,
    manufacturer: Option<string>,
    extractionDate: string)

  /** The `Literal["de", "en"]` constraint on `language`. */
  predicate IsSupportedLanguage(code: string)
  {
    code == "de" || code == "en"
  }

  /** A record that construction can produce: a URL that passed validation and a supported language. */
  ghost predicate IsValidRecord(rec: PdfData, isHttpUrl: string -> bool)
  {
    isHttpUrl(rec.url) && IsSupportedLanguage(rec.language)
  }

  /**
   * `PDFData(id=..., url=..., text=..., language=...)`. The URL check of `AnyHttpUrl` is the
   * oracle `isHttpUrl`; `extractionDate` is the clock reading the default factory takes;
   * `manufacturer` defaults to `None`. All failing fields are reported together, in
   * declaration order, as one validation error.
   */
  function NewPdfData(
    id: int, url: string, text: string, language: string,
    isHttpUrl: string -> bool, extractionDate: string,
    manufacturer: Option<string> := None): (r: Result<PdfData, Error>)
    ensures r.Ok? <==> isHttpUrl(url) && (language == "de" || language == "en")
    ensures r.Ok? ==>
      && r.value.id == id && r.value.url == url && r.value.text == text
      && r.value.language == language && r.value.manufacturer == manufacturer
      && r.value.extractionDate == extractionDate
      && IsValidRecord(r.value, isHttpUrl)
    ensures r.Err? ==>
      && r.error.ValidationError?
      && |r.error.fields| > 0
      && (UrlField in r.error.fields <==> !isHttpUrl(url))
      && (LanguageField in r.error.fields <==> language != "de" && language != "en")
  {
    var invalid :=
      (if isHttpUrl(url) then [] else [UrlField]) +
      (if IsSupportedLanguage(language) then [] else [LanguageField]);
    if invalid == [] then Ok(PdfData(id, url, text, language, manufacturer, extractionDate))
    else Err(ValidationError(invalid))
  }
}
