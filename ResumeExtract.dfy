/** Reading an uploaded résumé and normalising the analysis the Gemini model
    returns for it: the text part of the reply is parsed as JSON and
    projected onto a schema of keys with default values. The PDF and DOCX
    text extractors and `JSON.parse` are parameters. */
module ResumeExtract {
  import opened Wrappers
  import opened Text
  import opened JsonValue

  // ---------------------------------------------------------------- schema

  /** `resumeResponseFormat`: the keys of a résumé analysis with their
      defaults. */
  const ResumeResponseFormat: seq<(string, Json)> := [
    ("atsScore", Number(0)),
    ("strengths", Arr([])),
    ("weaknesses", Arr([])),
    ("improvements", Arr([])),
    ("missingKeywords", Arr([]))
  ]

  // ---------------------------------------------------------------- file text

  datatype UploadedFile = UploadedFile(mimetype: Option<string>, buffer: seq<bv8>)

  const PdfMime := "application/pdf"
  const DocxMime := "application/vnd.openxmlformats-officedocument.wordprocessingml.document"

  /** `extractResumeText`: a missing file and any type other than PDF and
      DOCX are errors; each of the two types goes to its own extractor,
      whose failure is passed on. */
  function ExtractResumeText(file: Option<UploadedFile>,
                             pdf: seq<bv8> -> Result<string, string>,
                             docx: seq<bv8> -> Result<string, string>): (r: Result<string, string>)
    ensures file.None? ==> r == Failure("File not provided")
    ensures file.Some? && file.value.mimetype != Some(PdfMime) && file.value.mimetype != Some(DocxMime) ==>
              r == Failure("Unsupported file format")
    ensures file.Some? && file.value.mimetype == Some(PdfMime) ==> r == pdf(file.value.buffer)
    ensures file.Some? && file.value.mimetype == Some(DocxMime) ==> r == docx(file.value.buffer)
  {
    if file.None? then Failure("File not provided")
    else if file.value.mimetype == Some(PdfMime) then pdf(file.value.buffer)
    else if file.value.mimetype == Some(DocxMime) then docx(file.value.buffer)
    else Failure("Unsupported file format")
  }

  /** The extractor for the other type is never consulted, and for an
      unsupported type neither is. */
  lemma ExtractorChoice(file: UploadedFile,
                        pdf1: seq<bv8> -> Result<string, string>, pdf2: seq<bv8> -> Result<string, string>,
                        docx1: seq<bv8> -> Result<string, string>, docx2: seq<bv8> -> Result<string, string>)
    ensures file.mimetype == Some(PdfMime) ==>
              ExtractResumeText(Some(file), pdf1, docx1) == ExtractResumeText(Some(file), pdf1, docx2)
    ensures file.mimetype == Some(DocxMime) ==>
              ExtractResumeText(Some(file), pdf1, docx1) == ExtractResumeText(Some(file), pdf2, docx1)
    ensures file.mimetype != Some(PdfMime) && file.mimetype != Some(DocxMime) ==>
              ExtractResumeText(Some(file), pdf1, docx1) == ExtractResumeText(Some(file), pdf2, docx2)
  {
  }

  // ---------------------------------------------------------------- reply text

  /** `v?.[key]` for an own member of an object; anything else has none. */
  function Member(v: Option<Json>, key: string): Option<Json> {
    match v
    case Some(Obj(members)) => Get(members, key)
    case _ => None
  }

  /** `v?.[i]`: an array's element, or an object's member named by `i`. */
  function Element(v: Option<Json>, i: nat): Option<Json> {
    match v
    case Some(Arr(items)) => if i < |items| then Some(items[i]) else None
    case Some(Obj(members)) => Get(members, NatToString(i))
    case _ => None
  }

  /** `geminiResponse?.candidates?.[0]?.content?.parts?.[0]?.text`. */
  function RawText(response: Option<Json>): Option<Json> {
    Member(Element(Member(Member(Element(Member(response, "candidates"), 0), "content"), "parts"), 0), "text")
  }

  /** JavaScript truthiness of a JSON value or `undefined`. */
  predicate Truthy(v: Option<Json>) {
    match v
    case None => false
    case Some(Null) => false
    case Some(Boolean(b)) => b
    case Some(Number(n)) => n != 0
    case Some(Str(s)) => s != ""
    case Some(_) => true
  }

  /** `String(v)`, which `JSON.parse` applies to a text part that is not a
      string: an array joins its elements with commas, `null` ones empty. */
  function JsText(v: Json): string
    decreases v
  {
    match v
    case Null => "null"
    case Boolean(b) => if b then "true" else "false"
    case Number(n) => IntToString(n)
    case Str(s) => s
    case Arr(items) =>
      Join(seq(|items|, i requires 0 <= i < |items| => if items[i].Null? then "" else JsText(items[i])), ',')
    case Obj(_) => "[object Object]"
  }

  /** The text handed to `JSON.parse`. */
  function ParseText(raw: Json): string {
    if raw.Str? then raw.s else JsText(raw)
  }

  // ---------------------------------------------------------------- normalising

  datatype GeminiError = EmptyResponse | InvalidJson | NullParsed(key: string)

  /** The error's message; reading a key of a parsed `null` is a TypeError. */
  function Message(e: GeminiError): string {
    match e
    case EmptyResponse => "Empty response from Gemini"
    case InvalidJson => "Gemini returned invalid JSON"
    case NullParsed(key) => "Cannot read properties of null (reading '" + key + "')"
  }

  /** `value ?? default`: only `null` and `undefined` fall back. */
  function Fallback(v: Option<Json>, default: Json): Json {
    if v.None? || v.value.Null? then default else v.value
  }

  /** The normalised object: the schema's keys in order, each with the
      parsed value or, failing that, the schema's default. */
  function Normalized(parsed: Json, schema: seq<(string, Json)>): (r: seq<(string, Json)>)
    ensures |r| == |schema|
  {
    seq(|schema|, i requires 0 <= i < |schema| => (schema[i].0, Fallback(Member(Some(parsed), schema[i].0), schema[i].1)))
  }

  /** The second half of `formatGeminiResponse`, once the text has parsed:
      reading a key of `null` throws at the first key of the schema. */
  function NormalizeParsed(parsed: Json, schema: seq<(string, Json)>): Result<seq<(string, Json)>, GeminiError> {
    if parsed.Null? && schema != [] then Failure(NullParsed(schema[0].0))
    else Success(Normalized(parsed, schema))
  }

  /** What `formatGeminiResponse` returns or throws. */
  function FormatGemini(response: Option<Json>, schema: seq<(string, Json)>,
                        parse: string -> Option<Json>): Result<seq<(string, Json)>, GeminiError> {
    var raw := RawText(response);
    if !Truthy(raw) then Failure(EmptyResponse)
    else
      match parse(ParseText(raw.value))
      case None => Failure(InvalidJson)
      case Some(parsed) => NormalizeParsed(parsed, schema)
  }

  /** The loop of `formatGeminiResponse`, filling the result key by key. The
      schema is a JavaScript object, so its keys are distinct and each
      assignment adds a member. */
  method NormalizeResponse(parsed: Json, schema: seq<(string, Json)>)
      returns (r: Result<seq<(string, Json)>, GeminiError>)
    ensures r == NormalizeParsed(parsed, schema)
  {
    var formatted: seq<(string, Json)> := [];
    var i := 0;
    while i < |schema|
      invariant 0 <= i <= |schema|
      invariant |formatted| == i
      invariant forall j | 0 <= j < i :: formatted[j] == Normalized(parsed, schema)[j]
      invariant parsed.Null? ==> i == 0
    {
      var key := schema[i].0;
      if parsed.Null? {
        return Failure(NullParsed(key));
      }
      formatted := formatted + [(key, Fallback(Member(Some(parsed), key), schema[i].1))];
      i := i + 1;
    }
    assert formatted == Normalized(parsed, schema);
    r := Success(formatted);
  }

  /** `formatGeminiResponse`: the text part of the first candidate, parsed
      and normalised onto the schema. */
  method FormatGeminiResponse(response: Option<Json>, schema: seq<(string, Json)>,
                              parse: string -> Option<Json>)
      returns (r: Result<seq<(string, Json)>, GeminiError>)
    ensures r == FormatGemini(response, schema, parse)
  {
    var raw := RawText(response);
    if !Truthy(raw) {
      return Failure(EmptyResponse);
    }
    var parsed := parse(ParseText(raw.value));
    if parsed.None? {
      return Failure(InvalidJson);
    }
    r := NormalizeResponse(parsed.value, schema);
  }

  /** The errors: an empty text part, text that does not parse, and a
      parsed `null` under a non-empty schema, each on exactly its case. */
  lemma FormatGeminiErrors(response: Option<Json>, schema: seq<(string, Json)>, parse: string -> Option<Json>)
    ensures var r := FormatGemini(response, schema, parse);
            var raw := RawText(response);
            && (r == Failure(EmptyResponse) <==> !Truthy(raw))
            && (r == Failure(InvalidJson) <==>
                  Truthy(raw) && parse(ParseText(raw.value)).None?)
            && (r.Success? <==>
                  Truthy(raw) && var p := parse(ParseText(raw.value));
                  p.Some? && (schema == [] || !p.value.Null?))
  {
  }

  /** The result has exactly the schema's keys, in the schema's order, so
      parsed keys outside the schema are dropped. */
  lemma NormalizedKeys(parsed: Json, schema: seq<(string, Json)>)
    ensures Keys(Normalized(parsed, schema)) == Keys(schema)
    ensures DistinctKeys(schema) ==> DistinctKeys(Normalized(parsed, schema))
  {
  }

  /** A parsed value is kept whenever it is present and not `null`, falsy
      ones (0, "", false, []) included; otherwise the default is used. */
  lemma NormalizedValues(parsed: Json, schema: seq<(string, Json)>, i: nat)
    requires i < |schema|
    ensures var v := Member(Some(parsed), schema[i].0);
            && (v.Some? && !v.value.Null? ==> Normalized(parsed, schema)[i].1 == v.value)
            && (v.None? || v.value.Null? ==> Normalized(parsed, schema)[i].1 == schema[i].1)
  {
  }

  /** Normalising a normalised result against the same schema gives it
      back. */
  lemma NormalizedIdempotent(parsed: Json, schema: seq<(string, Json)>)
    requires DistinctKeys(schema)
    ensures Normalized(Obj(Normalized(parsed, schema)), schema) == Normalized(parsed, schema)
  {
    var once := Normalized(parsed, schema);
    var twice := Normalized(Obj(once), schema);
    forall i | 0 <= i < |schema|
      ensures twice[i] == once[i]
    {
      NormalizedFixedAt(parsed, schema, i);
    }
  }

  /** One member of `NormalizedIdempotent`: the key finds its own member in
      the normalised object, and a kept value is kept again. */
  lemma NormalizedFixedAt(parsed: Json, schema: seq<(string, Json)>, i: nat)
    requires DistinctKeys(schema) && i < |schema|
    ensures Normalized(Obj(Normalized(parsed, schema)), schema)[i] == Normalized(parsed, schema)[i]
  {
    var once := Normalized(parsed, schema);
    NormalizedKeys(parsed, schema);
    assert once[i].0 == schema[i].0;
    GetMember(once, i);
    assert Member(Some(Obj(once)), schema[i].0) == Some(once[i].1);
  }

  /** An analysis with none of the keys is the default analysis. */
  lemma EmptyAnalysisIsDefault(parsed: seq<(string, Json)>)
    requires forall k | k in Keys(ResumeResponseFormat) :: k !in Keys(parsed)
    ensures Normalized(Obj(parsed), ResumeResponseFormat) == ResumeResponseFormat
  {
    NoSchemaKeysGiveDefaults(parsed, ResumeResponseFormat);
  }

  /** A parsed object sharing no key with the schema normalises to the
      schema's defaults. */
  lemma NoSchemaKeysGiveDefaults(parsed: seq<(string, Json)>, schema: seq<(string, Json)>)
    requires forall k | k in Keys(schema) :: k !in Keys(parsed)
    ensures Normalized(Obj(parsed), schema) == schema
  {
    var keys := Keys(schema);
    forall i | 0 <= i < |schema|
      ensures Normalized(Obj(parsed), schema)[i] == schema[i]
    {
      assert keys[i] in keys;
    }
  }
}
