/**
 * The completion call seen from the plugin: the service's answer is one
 * `Outcome`, `CallOpenAI` is the status check of the request function, and
 * `DoTransform` collapses the outcome into the `{success, result,
 * tokenCount}` record, or into nothing when its promise never settles.
 */
module CompletionClient {
  import opened Wrappers
  import opened JsString

  /** The `usage` object of a response; `total_tokens` may be absent (`undefined`). */
  datatype Usage = Usage(totalTokens: Option<nat>)

  /**
   * The parsed JSON of a 200 response, reduced to the two paths the plugin
   * reads: `choices[0].message.content` (absent when there is no first
   * choice, no message or no string content) and the `usage` object.
   */
  datatype ResponseJson = ResponseJson(content: Option<string>, usage: Option<Usage>)

  /** Reading `content.trim()` and `usage.total_tokens` does not throw. */
  predicate Readable(json: ResponseJson) {
    json.content.Some? && json.usage.Some?
  }

  datatype Body = Unparsable | Json(json: ResponseJson)

  /** What the network request produces. */
  datatype Outcome =
    | TransportError                     // the request itself rejects
    | Response(status: int, body: Body)

  /** How a promise settles. */
  datatype Settled<T> = Fulfilled(value: T) | Rejected

  /** The resolved record; a `tokenCount` of `None` is the `undefined` read from a `usage` without `total_tokens`. */
  datatype CompletionResult = CompletionResult(success: bool, result: string, tokenCount: Option<nat>)

  const OkStatus := 200

  /** The record resolved on every failure. */
  const Failure := CompletionResult(false, "", Some(0))

  /**
   * The request function: it fulfils with the parsed body exactly on a 200
   * whose body parses, and rejects on a transport error, on any other
   * status (the thrown error), and when the 200 body is not JSON.
   */
  function CallOpenAI(o: Outcome): (r: Settled<ResponseJson>)
    ensures r.Fulfilled? <==> o.Response? && o.status == OkStatus && o.body.Json?
    ensures r.Fulfilled? ==> r.value == o.body.json
  {
    match o
    case TransportError => Rejected
    case Response(status, body) =>
      if status == OkStatus then
        match body
        case Unparsable => Rejected
        case Json(json) => Fulfilled(json)
      else Rejected
  }

  /**
   * The promise `doTransform` returns: `None` when it never resolves (a
   * fulfilled body without a first choice's content or without `usage`
   * makes the resolving callback throw before it resolves), otherwise the
   * record it resolves with.
   */
  function DoTransform(o: Outcome): (r: Option<CompletionResult>)
    ensures r.None? <==> CallOpenAI(o).Fulfilled? && !Readable(CallOpenAI(o).value)
    ensures CallOpenAI(o).Rejected? ==> r == Some(Failure)
    ensures r.Some? ==> (r.value.success <==> CallOpenAI(o).Fulfilled?)
    ensures r.Some? && r.value.success ==>
              r.value.result == Trim(o.body.json.content.value)
              && r.value.tokenCount == o.body.json.usage.value.totalTokens
    ensures r.Some? ==> NoSurroundingWhitespace(r.value.result)
  {
    match CallOpenAI(o)
    case Rejected => Some(Failure)
    case Fulfilled(json) =>
      if Readable(json) then Some(CompletionResult(true, Trim(json.content.value), json.usage.value.totalTokens))
      else None
  }

  /** A transport error, or any status other than 200, resolves with the failure record. */
  lemma FailureOutcomes(o: Outcome)
    requires o.TransportError? || (o.Response? && o.status != OkStatus)
    ensures DoTransform(o) == Some(Failure)
  {
  }

  /** A 200 with the expected fields resolves with the trimmed first choice and the total token count. */
  lemma SuccessOutcome(content: string, totalTokens: nat)
    ensures DoTransform(Response(OkStatus, Json(ResponseJson(Some(content), Some(Usage(Some(totalTokens)))))))
         == Some(CompletionResult(true, Trim(content), Some(totalTokens)))
  {
  }

  /**
   * A 200 whose `usage` lacks `total_tokens` still resolves as a success:
   * only the token count is undefined.
   */
  lemma SuccessWithoutTokenTotal(content: string)
    ensures DoTransform(Response(OkStatus, Json(ResponseJson(Some(content), Some(Usage(None))))))
         == Some(CompletionResult(true, Trim(content), None))
  {
  }

  /** A 200 without a first choice's content, or without `usage`, never resolves. */
  lemma UnreadableBodyNeverResolves(json: ResponseJson)
    requires json.content.None? || json.usage.None?
    ensures DoTransform(Response(OkStatus, Json(json))).None?
  {
  }

  /** A resolved record whose `success` is false is exactly the failure record. */
  lemma FailureIsEmpty(o: Outcome)
    requires DoTransform(o).Some? && !DoTransform(o).value.success
    ensures DoTransform(o).value.result == "" && DoTransform(o).value.tokenCount == Some(0)
  {
  }
}
