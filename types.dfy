/** The records exchanged with the dictionary backend (lib/types.ts), plus the
    step records the page keeps while a query streams. */
module Types {

  datatype Option<T> = None | Some(value: T)

  datatype Result<T, E> = Success(value: T) | Failure(error: E)

  /** A property read from a parsed JSON object. JavaScript tells two kinds of
      "nothing" apart: a missing key reads as `undefined`, an explicit JSON
      `null` reads as `null`. Otherwise the key holds a value of its declared type. */
  datatype Field<T> = Undefined | Null | Given(value: T)

  /** The nullish-coalescing operator `f ?? d`: only `undefined` and `null` fall back. */
  function Coalesce<T>(f: Field<T>, d: T): T
  {
    if f.Given? then f.value else d
  }

  /** Truthiness of a string field, as `||` and `&&` see it: `undefined`,
      `null` and the empty string are falsy. */
  predicate TruthyString(f: Field<string>)
  {
    f.Given? && f.value != ""
  }

  /** A JSON value, for payload keys that are carried along but never read. */
  datatype Json =
    | JNull
    | JBool(b: bool)
    | JNumber(n: real)
    | JString(s: string)
    | JArray(items: seq<Json>)
    | JObject(members: map<string, Json>)

  datatype DictionaryEntry = DictionaryEntry(
    word: string,
    partOfSpeech: Option<string>,
    definitionSw: Option<string>,
    definitionEn: Option<string>,
    similarityScore: real,
    examples: Option<seq<map<string, string>>>,
    synonyms: Option<seq<string>>)

  /** The states a pipeline step is displayed in: a closed set, so a frame
      with any other status string is not representable here. */
  datatype StepStatus = Pending | Running | Done | Error

  /** The `data` object of a stream event: the keys the page reads, each as a
      `Field`, and every other key as raw JSON. */
  datatype Payload = Payload(
    message: Field<string>,
    query: Field<string>,
    language: Field<string>,
    response: Field<string>,
    retrievedEntries: Field<seq<DictionaryEntry>>,
    topMatch: Field<DictionaryEntry>,
    processingTimeMs: Field<real>,
    belowThreshold: Field<bool>,
    blocked: Field<bool>,
    others: map<string, Json>)

  /** One `data: ` frame of the query stream. */
  datatype StreamEvent = StreamEvent(step: string, status: StepStatus, data: Payload)

  /** One row of the pipeline-progress list; timestamps are milliseconds. */
  datatype PipelineStep = PipelineStep(
    step: string,
    status: StepStatus,
    data: Payload,
    startedAt: int,
    completedAt: Option<int>)

  /** The final answer. This is the superset shape: `belowThreshold` and
      `blocked` are always filled in, the copied fields keep whatever the
      payload held, including `undefined` and `null`. */
  datatype QueryResponse = QueryResponse(
    query: Field<string>,
    language: Field<string>,
    response: Field<string>,
    retrievedEntries: seq<DictionaryEntry>,
    topMatch: Field<DictionaryEntry>,
    processingTimeMs: Field<real>,
    belowThreshold: bool,
    blocked: bool)

  /** The JSON body of a non-2xx response. */
  datatype ErrorResponse = ErrorResponse(error: Field<string>, detail: Field<string>, query: Field<string>)
}
