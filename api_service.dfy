/**
 * The response validation of `analyzeResume` (frontend/src/services/api.js). The fetch itself is
 * not modelled: its outcome is the `Reply` parameter, and what `analyzeResume` then returns or
 * throws is `AnalyzeResume(reply)`.
 */
module ApiService {
  import opened Wrappers
  import opened JsValues

  const ScoreKey := "Evaluating Score"
  const StatementKey := "Evaluating Statement"
  const SuggestionsKey := "Suggestions"
  const DetailKey := "detail"

  const NotOkMessage := "Network response was not ok"
  const InvalidFormatMessage := "Invalid response format"
  const MissingFieldsMessage := "Missing required fields in response"
  /** The TypeError V8 throws for `null.detail` (the wording is engine-specific). */
  const NullDetailMessage := "Cannot read properties of null (reading 'detail')"

  /** What `response.json()` produced: a parsed value, or the error it rejected with. */
  datatype Body = Parsed(data: Json) | Unparsable(parseError: Msg)

  /** The outcome of `fetch`: it rejected (network failure), or a response with `ok` and a body. */
  datatype Reply = NetworkFailure(fetchError: Msg) | Received(ok: bool, body: Body)

  /** A response body that carries the three fields the result view needs. */
  predicate WellFormed(data: Json)
  {
    && data.JObj?
    && ScoreKey in data.fields && Truthy(data.fields[ScoreKey])
    && StatementKey in data.fields && Truthy(data.fields[StatementKey])
    && SuggestionsKey in data.fields && data.fields[SuggestionsKey].JArr?
  }

  /** The message thrown for a non-ok status: `data.detail || 'Network response was not ok'`. */
  function NotOkError(data: Json): (m: Msg)
    ensures (data.JObj? && DetailKey in data.fields && data.fields[DetailKey].JStr?
             && data.fields[DetailKey].s != "") ==> m == Text(data.fields[DetailKey].s)
    ensures data.JObj? && DetailKey in data.fields && Truthy(data.fields[DetailKey])
            ==> m == ErrorMessageOf(data.fields[DetailKey])
    ensures data == JNull ==> m == Text(NullDetailMessage)
    ensures !data.JObj? && data != JNull ==> m == Text(NotOkMessage)
    ensures data.JObj? && (DetailKey !in data.fields || !Truthy(data.fields[DetailKey]))
            ==> m == Text(NotOkMessage)
  {
    if data == JNull then Text(NullDetailMessage)
    else
      var detail := Prop(data, DetailKey);
      if TruthyOpt(detail) then ErrorMessageOf(detail.value) else Text(NotOkMessage)
  }

  /**
   * `analyzeResume` after the fetch: the status check, then the shape check, then the field check;
   * the first that fails decides the thrown message, and any error thrown earlier (by `fetch` or
   * by `response.json()`) is rethrown unchanged. Success returns the parsed body itself.
   */
  function AnalyzeResume(reply: Reply): (r: Result<Json, Msg>)
    // errors raised before the checks are rethrown unchanged
    ensures reply.NetworkFailure? ==> r == Failure(reply.fetchError)
    ensures reply.Received? && reply.body.Unparsable? ==> r == Failure(reply.body.parseError)
    // a non-ok status always fails, whatever the body holds
    ensures reply.Received? && !reply.ok ==> r.Failure?
    ensures reply.Received? && !reply.ok && reply.body.Parsed?
            ==> r == Failure(NotOkError(reply.body.data))
    // with an ok status: shape first, then the fields
    ensures reply.Received? && reply.ok && reply.body.Parsed? ==>
              var data := reply.body.data;
              && (!(data.JObj? || data.JArr?) <==> r == Failure(Text(InvalidFormatMessage)))
              && (((data.JObj? || data.JArr?) && !WellFormed(data))
                    <==> r == Failure(Text(MissingFieldsMessage)))
    // success exactly for an ok, well-formed body, which is returned unchanged
    ensures r.Success? <==> reply.Received? && reply.ok && reply.body.Parsed? && WellFormed(reply.body.data)
    ensures r.Success? ==> r.value == reply.body.data
  {
    match reply
    case NetworkFailure(e) => Failure(e)
    case Received(ok, Unparsable(e)) => Failure(e)
    case Received(ok, Parsed(data)) =>
      if !ok then Failure(NotOkError(data))
      else if !Truthy(data) || Typeof(data) != "object" then Failure(Text(InvalidFormatMessage))
      else if !TruthyOpt(Prop(data, ScoreKey)) || !TruthyOpt(Prop(data, StatementKey))
              || !IsArrayOpt(Prop(data, SuggestionsKey))
      then Failure(Text(MissingFieldsMessage))
      else Success(data)
  }

  /** A response {"Evaluating Score": score, "Evaluating Statement": "Good match", "Suggestions": suggestions}. */
  function SampleBody(score: real, suggestions: seq<Json>): Json
  {
    JObj(map[ScoreKey := JNum(score), StatementKey := JStr("Good match"), SuggestionsKey := JArr(suggestions)])
  }

  /** Concrete cases: a zero score is rejected, an empty suggestion list and the sample are accepted. */
  lemma ValidationExamples()
    ensures AnalyzeResume(Received(true, Parsed(SampleBody(0.0, [])))) == Failure(Text(MissingFieldsMessage))
    ensures AnalyzeResume(Received(true, Parsed(SampleBody(8.0, [])))) == Success(SampleBody(8.0, []))
    ensures var body := SampleBody(8.0, [JStr("Add metrics"), JStr("Shorten summary")]);
            AnalyzeResume(Received(true, Parsed(body))) == Success(body)
    ensures AnalyzeResume(Received(true, Parsed(JArr([])))) == Failure(Text(MissingFieldsMessage))
    ensures AnalyzeResume(Received(true, Parsed(JNull))) == Failure(Text(InvalidFormatMessage))
    ensures AnalyzeResume(Received(false, Parsed(JObj(map[DetailKey := JStr("file too large")]))))
            == Failure(Text("file too large"))
    ensures AnalyzeResume(Received(false, Parsed(JObj(map[])))) == Failure(Text(NotOkMessage))
    ensures AnalyzeResume(Received(false, Parsed(SampleBody(8.0, [])))) == Failure(Text(NotOkMessage))
  {
  }
}
