/**
 * Request shaping and response parsing for the two model families the chatbot talks to
 * (app.py, BedrockChatbot.chat): Amazon Titan, which takes one input text, and Anthropic
 * Claude, which takes the whole conversation.  Bodies are structured values here; their
 * JSON text form is not modelled.
 */
module Adapter {
  import opened Wrappers
  import opened Text

  datatype Role = User | Assistant

  /** One entry of the conversation history, `{"role": ..., "content": ...}`. */
  datatype Turn = Turn(role: Role, content: string)

  const AnthropicVersion := "bedrock-2023-05-31"
  const MaxTokens: nat := 2000
  /** Sampling parameters; only carried, never reasoned about. */
  const Temperature: real := 0.7
  const TopP: real := 0.9

  datatype TextGenerationConfig = TextGenerationConfig(maxTokenCount: nat, temperature: real, topP: real)

  /** The request body handed to the endpoint, one constructor per family. */
  datatype RequestBody =
    | TitanRequest(inputText: string, textGenerationConfig: TextGenerationConfig)
    | ClaudeRequest(anthropicVersion: string, maxTokens: nat, messages: seq<Turn>,
                    temperature: real, topP: real)

  /** The family test: Titan when "titan" occurs in the lower-cased model id. */
  predicate IsTitan(modelId: string)
  {
    Contains(Lower(modelId), "titan")
  }

  function TitanBody(message: string): RequestBody
  {
    TitanRequest(message, TextGenerationConfig(MaxTokens, Temperature, TopP))
  }

  function ClaudeBody(messages: seq<Turn>): RequestBody
  {
    ClaudeRequest(AnthropicVersion, MaxTokens, messages, Temperature, TopP)
  }

  /** The body `chat` sends for `message`, given the history held before the call. */
  function RequestFor(modelId: string, history: seq<Turn>, message: string): (body: RequestBody)
    ensures body.TitanRequest? <==> IsTitan(modelId)
    ensures body.TitanRequest? ==>
              body.inputText == message && body.textGenerationConfig.maxTokenCount == 2000
    ensures body.ClaudeRequest? ==>
              && body.messages == history + [Turn(User, message)]
              && body.anthropicVersion == "bedrock-2023-05-31" && body.maxTokens == 2000
  {
    if IsTitan(modelId) then TitanBody(message) else ClaudeBody(history + [Turn(User, message)])
  }

  /** A decoded JSON response body.  Numbers are integers; JSON floats are not modelled. */
  datatype Json =
    | JNull
    | JBool(b: bool)
    | JNumber(n: int)
    | JString(s: string)
    | JArray(items: seq<Json>)
    | JObject(fields: map<string, Json>)

  /** The Python exceptions that reading a field out of a decoded body can raise. */
  datatype PyException =
    | KeyError(keyRepr: string)
    | IndexError(message: string)
    | TypeError(message: string)

  /** `str(e)` for those exceptions. */
  function ExceptionText(e: PyException): string
  {
    match e
    case KeyError(keyRepr) => keyRepr
    case IndexError(message) => message
    case TypeError(message) => message
  }

  function NotSubscriptable(v: Json): PyException
  {
    match v
    case JNumber(_) => TypeError("'int' object is not subscriptable")
    case JBool(_) => TypeError("'bool' object is not subscriptable")
    case _ => TypeError("'NoneType' object is not subscriptable")
  }

  /** Python's `v[key]` for a string key. */
  function Field(v: Json, key: string): (r: Result<Json, PyException>)
    ensures r.Success? <==> v.JObject? && key in v.fields
    ensures r.Success? ==> r.value == v.fields[key]
    ensures v.JObject? && key !in v.fields ==> r == Failure(KeyError("'" + key + "'"))
  {
    match v
    case JObject(fields) => if key in fields then Success(fields[key]) else Failure(KeyError("'" + key + "'"))
    case JArray(_) => Failure(TypeError("list indices must be integers or slices, not str"))
    case JString(_) => Failure(TypeError("string indices must be integers, not 'str'"))
    case _ => Failure(NotSubscriptable(v))
  }

  /** Python's `v[0]`. */
  function First(v: Json): (r: Result<Json, PyException>)
    ensures v.JArray? ==> r == (if v.items == [] then Failure(IndexError("list index out of range"))
                                else Success(v.items[0]))
    ensures v.JString? ==> r == (if v.s == "" then Failure(IndexError("string index out of range"))
                                 else Success(JString(v.s[..1])))
  {
    match v
    case JArray(items) => if items != [] then Success(items[0]) else Failure(IndexError("list index out of range"))
    case JString(s) => if s != "" then Success(JString(s[..1])) else Failure(IndexError("string index out of range"))
    case JObject(_) => Failure(KeyError("0"))
    case _ => Failure(NotSubscriptable(v))
  }

  /** The top-level key of the reply list: `results` for Titan, `content` for Claude. */
  function ListKey(titan: bool): string
  {
    if titan then "results" else "content"
  }

  /** The key of the reply text inside the first list entry. */
  function TextKey(titan: bool): string
  {
    if titan then "outputText" else "text"
  }

  /**
   * The body holds a reply text where the family puts it: an object whose list under
   * `ListKey` starts with an object whose `TextKey` entry is a string.  Other keys anywhere
   * in the body play no part.
   */
  predicate CarriesText(titan: bool, body: Json)
  {
    && body.JObject? && ListKey(titan) in body.fields
    && var list := body.fields[ListKey(titan)];
    && list.JArray? && list.items != []
    && list.items[0].JObject? && TextKey(titan) in list.items[0].fields
    && list.items[0].fields[TextKey(titan)].JString?
  }

  /** The reply text a body carries. */
  function CarriedText(titan: bool, body: Json): string
    requires CarriesText(titan, body)
  {
    body.fields[ListKey(titan)].items[0].fields[TextKey(titan)].s
  }

  /**
   * `response_body['results'][0]['outputText']` (Titan) or `response_body['content'][0]['text']`
   * (Claude).  A text that is not a JSON string is reported as a failure.
   */
  function ExtractReply(titan: bool, body: Json): (r: Result<string, PyException>)
    ensures r.Success? <==> CarriesText(titan, body)
    ensures r.Success? ==> r.value == CarriedText(titan, body)
    ensures body.JObject? && ListKey(titan) !in body.fields ==>
      r == Failure(KeyError("'" + ListKey(titan) + "'"))
  {
    match Field(body, ListKey(titan))
    case Failure(e) => Failure(e)
    case Success(list) =>
      match First(list)
      case Failure(e) => Failure(e)
      case Success(entry) =>
        match Field(entry, TextKey(titan))
        case Failure(e) => Failure(e)
        case Success(JString(text)) => Success(text)
        case Success(_) => Failure(TypeError("reply text is not a str"))
  }

  /** A well-formed response of the given family carrying `text`. */
  function ReplyBody(titan: bool, text: string): Json
  {
    JObject(map[ListKey(titan) := JArray([JObject(map[TextKey(titan) := JString(text)])])])
  }

  /** Parsing a well-formed response gives back exactly the text it carries. */
  lemma ExtractReplyBody(titan: bool, text: string)
    ensures ExtractReply(titan, ReplyBody(titan, text)) == Success(text)
  {
  }

  /** An empty reply list is an IndexError, whatever the family. */
  lemma ExtractReplyEmptyList(titan: bool, fields: map<string, Json>)
    requires ListKey(titan) in fields && fields[ListKey(titan)] == JArray([])
    ensures ExtractReply(titan, JObject(fields)) == Failure(IndexError("list index out of range"))
  {
  }
}
