/** The deterministic parts of the client for the local language model: the request
    body `generate` posts, the reply it gives when the request fails, and the way a
    reply text is cut down to the JSON object inside it. The HTTP request itself and
    `json.loads` are parameters. */
module OllamaClient {
  import opened Wrappers
  import opened Strings
  import opened JsonData

  /** `json.loads` applied to a text that begins with '{' and ends with '}': a decoded
      object, or `None` for a `JSONDecodeError`. */
  type Decoder = string -> Option<Object>

  /** What `requests.post(...)` followed by `raise_for_status()` and `.json()` gives: the
      decoded body, or the text of the exception raised. */
  datatype HttpOutcome = Replied(body: Object) | Failed(message: string)

  /** The request body of `generate`: `system` is present only for a non-empty system
      prompt. */
  function Payload(model: string, prompt: string, system: Option<string>, temperature: real, maxTokens: int): (p: Object)
    ensures p.Keys == {"model", "prompt", "stream", "options"} + (if system.Some? && system.value != "" then {"system"} else {})
    ensures p["model"] == JStr(model) && p["prompt"] == JStr(prompt) && p["stream"] == JBool(false)
    ensures p["options"] == JObj(map["temperature" := JNum(temperature), "num_predict" := JNum(maxTokens as real)])
    ensures "system" in p ==> p["system"] == JStr(system.value)
  {
    var base := map[
      "model" := JStr(model),
      "prompt" := JStr(prompt),
      "stream" := JBool(false),
      "options" := JObj(map["temperature" := JNum(temperature), "num_predict" := JNum(maxTokens as real)])];
    if system.Some? && system.value != "" then base["system" := JStr(system.value)] else base
  }

  /** The reply `generate` returns instead of raising. */
  function ErrorReply(message: string): (r: Object)
    ensures r.Keys == {"response", "error"}
    ensures Truthy(r["error"])
    ensures GetText(r, "response") == "Error generating response: " + message
  {
    map["response" := JStr("Error generating response: " + message), "error" := JBool(true)]
  }

  /** `generate`: the body of a successful request, the error reply otherwise. */
  function Generate(payload: Object, post: Object -> HttpOutcome): (r: Object)
    ensures post(payload).Failed? ==> r == ErrorReply(post(payload).message)
    ensures post(payload).Replied? ==> r == post(payload).body
  {
    match post(payload)
    case Replied(body) => body
    case Failed(message) => ErrorReply(message)
  }

  /** The reply `_parse_response` gives when it finds no object to decode. */
  function Unparsed(response: string): (r: Object)
    ensures r.Keys == {"raw_response", "parsed"}
    ensures !Truthy(r["parsed"]) && r["raw_response"] == JStr(response)
  {
    map["raw_response" := JStr(response), "parsed" := JBool(false)]
  }

  /** The slice `response[start:end]` from the first '{' through the last '}', when the
      last '}' comes after the first '{'. */
  function Candidate(response: string): Option<string> {
    Enclosed(response, '{', '}')
  }

  /** `_parse_response`: the decoded object when there is a slice and it decodes, the
      unparsed reply carrying the whole text otherwise. */
  function ParseResponse(response: string, decode: Decoder): Object {
    match Candidate(response)
    case Some(slice) =>
      (match decode(slice)
       case Some(o) => o
       case None => Unparsed(response))
    case None => Unparsed(response)
  }

  /** The reply carries a truthy `parsed` key only if the decoded object itself did: a
      failed parse never does, and neither does a decoded object without that key. */
  lemma ParsedFlag(response: string, decode: Decoder)
    ensures var r := ParseResponse(response, decode);
      ("parsed" in r && Truthy(r["parsed"])) ==>
        && Candidate(response).Some?
        && decode(Candidate(response).value).Some?
        && r == decode(Candidate(response).value).value
    ensures Candidate(response).None? ==> ParseResponse(response, decode) == Unparsed(response)
  {
  }

  /** A reply made of text without '{', one braced part, and text without '}' is
      decoded from exactly that braced part. */
  lemma ParseResponseOf(prefix: string, body: string, suffix: string, decode: Decoder)
    requires '{' !in prefix && '}' !in suffix
    ensures var response := prefix + "{" + body + "}" + suffix;
      ParseResponse(response, decode) ==
        (match decode("{" + body + "}")
         case Some(o) => o
         case None => Unparsed(response))
  {
    EnclosedOf(prefix, body, suffix, '{', '}');
  }

  /** `generate_cleaning_strategy`, given the reply of `generate`: the text under
      `response`, or '' when the key is missing, handed to `_parse_response`. A
      `response` that is not text has no `.find`, and the `AttributeError` it raises is
      not caught there: `None`. */
  function CleaningStrategy(reply: Object, decode: Decoder): (r: Option<Object>)
    ensures r.None? <==> "response" in reply && !reply["response"].JStr?
    ensures r.Some? ==> r.value == ParseResponse(GetText(reply, "response"), decode)
  {
    if "response" !in reply then Some(ParseResponse("", decode))
    else
      match reply["response"]
      case JStr(text) => Some(ParseResponse(text, decode))
      case _ => None
  }

  /** A request that fails with a message without '{' yields the unparsed reply
      carrying the failure text, so no strategy is ever decoded from it. */
  lemma FailedRequestUnparsed(payload: Object, post: Object -> HttpOutcome, decode: Decoder)
    requires post(payload).Failed? && '{' !in post(payload).message
    ensures CleaningStrategy(Generate(payload, post), decode) ==
      Some(Unparsed("Error generating response: " + post(payload).message))
  {
    var text := "Error generating response: " + post(payload).message;
    assert '{' !in text;
  }
}
