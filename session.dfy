/**
 * The conversation session, `BedrockChatbot` (app.py:11-93): a model id and a turn history
 * that `chat` extends in place for the Claude family and leaves alone for the Titan family.
 * The boto3 client is the `Endpoint` oracle passed in at construction.
 */
module Session {
  import opened Wrappers
  import opened Sequences
  import opened Text
  import opened Adapter
  import opened Remote
  import opened Markers

  const DefaultRegion := "us-east-1"
  const DefaultModelId := "anthropic.claude-3-7-sonnet-20250219-v1:0"
  const ClearedReply := "Conversation history cleared."

  /** `model_id if model_id else DefaultModelId`: None and the empty string both select the default. */
  function ResolveModelId(requested: Option<string>): (id: string)
    ensures id != ""
    ensures requested.Some? && requested.value != "" ==> id == requested.value
    ensures requested.None? || requested.value == "" ==> id == DefaultModelId
  {
    if requested.Some? && requested.value != "" then requested.value else DefaultModelId
  }

  /** What `chat`'s two `except` clauses catch. */
  datatype Failure =
    | ClientFailure(code: string, message: string)   // `except ClientError`
    | LocalFailure(text: string)                     // `except Exception`, with `str(e)`

  /** The string `chat` returns instead of raising. */
  function FailureReply(f: Failure): (reply: string)
    ensures f.ClientFailure? && Contains(f.message, InvalidPayment) ==>
              reply == PaymentPendingReply && Classify(reply) == PaymentPending
    ensures f.ClientFailure? && !Contains(f.message, InvalidPayment) ==>
              reply == AwsError + " (" + f.code + "): " + f.message
    ensures f.LocalFailure? ==> reply == "Error: " + f.text
    ensures StartsWith(reply, Warning) <==> f.ClientFailure? && Contains(f.message, InvalidPayment)
    ensures Classify(reply) != Usable
  {
    match f
    case ClientFailure(code, message) =>
      if Contains(message, InvalidPayment) then
        ContainsPrefix(Warning, PaymentPendingReply[|Warning|..]);
        assert PaymentPendingReply == Warning + PaymentPendingReply[|Warning|..];
        PaymentPendingReply
      else
        var reply := AwsError + " (" + code + "): " + message;
        assert reply == AwsError + (" (" + code + "): " + message);
        ContainsPrefix(AwsError, " (" + code + "): " + message);
        assert reply[0] == 'A';
        reply
    case LocalFailure(text) =>
      var reply := "Error: " + text;
      assert reply == ErrorColon + (" " + text);
      ContainsPrefix(ErrorColon, " " + text);
      assert reply[0] == 'E';
      reply
  }

  /** The outcome of one call as `chat` sees it: the reply text, or the failure it catches. */
  function Parse(outcome: InvokeOutcome, titan: bool): (r: Result<string, Failure>)
    ensures outcome.ClientError? ==> r == Failure(ClientFailure(outcome.code, outcome.message))
    ensures outcome.OtherError? ==> r == Failure(LocalFailure(outcome.text))
    ensures outcome.Response? ==> (r.Success? <==> CarriesText(titan, outcome.body))
    ensures outcome.Response? && r.Success? ==> r.value == CarriedText(titan, outcome.body)
    ensures outcome.Response? && r.Failure? ==>
              r == Failure(LocalFailure(ExceptionText(ExtractReply(titan, outcome.body).error)))
  {
    match outcome
    case ClientError(code, message) => Failure(ClientFailure(code, message))
    case OtherError(text) => Failure(LocalFailure(text))
    case Response(body) =>
      match ExtractReply(titan, body)
      case Failure(e) => Failure(LocalFailure(ExceptionText(e)))
      case Success(text) => Success(text)
  }

  /** The result of one `chat` call: what it returns and the history it leaves. */
  datatype Exchanged = Exchanged(reply: string, history: seq<Turn>)

  /** The meaning of one `chat(message)` call on a session holding `history`. */
  function Exchange(modelId: string, history: seq<Turn>, message: string, outcome: InvokeOutcome): (x: Exchanged)
    ensures IsTitan(modelId) ==> x.history == history
    ensures !IsTitan(modelId) && Parse(outcome, false).Success? ==>
              x.history == history + [Turn(User, message), Turn(Assistant, x.reply)]
    ensures !IsTitan(modelId) && Parse(outcome, false).Failure? ==>
              x.history == history + [Turn(User, message)]
    ensures Parse(outcome, IsTitan(modelId)).Success? ==> x.reply == Parse(outcome, IsTitan(modelId)).value
    ensures Parse(outcome, IsTitan(modelId)).Failure? ==>
              x.reply == FailureReply(Parse(outcome, IsTitan(modelId)).error) && Classify(x.reply) != Usable
  {
    var titan := IsTitan(modelId);
    var sent := if titan then history else history + [Turn(User, message)];
    match Parse(outcome, titan)
    case Failure(f) => Exchanged(FailureReply(f), sent)
    case Success(text) => Exchanged(text, if titan then sent else sent + [Turn(Assistant, text)])
  }

  class Chatbot {
    const regionName: string
    const endpoint: Endpoint
    var modelId: string
    var history: seq<Turn>

    constructor (regionName: string, modelId: Option<string>, endpoint: Endpoint)
      ensures this.regionName == regionName && this.endpoint == endpoint
      ensures this.modelId == ResolveModelId(modelId) && history == []
    {
      this.regionName := regionName;
      this.endpoint := endpoint;
      this.modelId := ResolveModelId(modelId);
      history := [];
    }

    /** Sends `message`; never fails, reporting every failure as a marker string. */
    method Chat(message: string) returns (reply: string)
      modifies this, endpoint
      ensures modelId == old(modelId)
      ensures var body := RequestFor(modelId, old(history), message);
              && endpoint.calls == old(endpoint.calls) + [Call(modelId, body)]
              && Exchanged(reply, history)
                 == Exchange(modelId, old(history), message, endpoint.respond(|old(endpoint.calls)|, modelId, body))
    {
      var titan := IsTitan(modelId);
      var body;
      if titan {
        body := TitanBody(message);
      } else {
        history := history + [Turn(User, message)];
        body := ClaudeBody(history);
      }
      var outcome := endpoint.InvokeModel(modelId, body);
      match Parse(outcome, titan) {
        case Failure(f) =>
          reply := FailureReply(f);
        case Success(text) =>
          if !titan {
            history := history + [Turn(Assistant, text)];
          }
          reply := text;
      }
    }

    method ClearHistory() returns (reply: string)
      modifies this
      ensures history == [] && modelId == old(modelId)
      ensures reply == ClearedReply
    {
      history := [];
      reply := ClearedReply;
    }
  }

  /**
   * Clearing twice leaves the session as clearing once does: an empty history and the same
   * model id, with the same confirmation both times.
   */
  method ClearIsIdempotent(bot: Chatbot) returns (first: string, second: string)
    modifies bot
    ensures first == second == ClearedReply
    ensures bot.history == [] && bot.modelId == old(bot.modelId)
  {
    first := bot.ClearHistory();
    ghost var once := (bot.modelId, bot.history);
    second := bot.ClearHistory();
    assert (bot.modelId, bot.history) == once;
  }

  /** The bodies sent, the replies returned and the final history of a run of `chat` calls. */
  datatype Transcript = Transcript(bodies: seq<RequestBody>, replies: seq<string>, history: seq<Turn>)

  /** `chat(messages[0])`, `chat(messages[1])`, ... where call j gets `outcomes[j]`. */
  function Converse(modelId: string, history: seq<Turn>, messages: seq<string>, outcomes: seq<InvokeOutcome>): (t: Transcript)
    requires |messages| == |outcomes|
    ensures |t.bodies| == |t.replies| == |messages|
    decreases |messages|
  {
    if messages == [] then Transcript([], [], history)
    else
      var x := Exchange(modelId, history, messages[0], outcomes[0]);
      var rest := Converse(modelId, x.history, messages[1..], outcomes[1..]);
      Transcript([RequestFor(modelId, history, messages[0])] + rest.bodies, [x.reply] + rest.replies, rest.history)
  }

  /** user, assistant, user, assistant, ...: the turns k successful exchanges add. */
  function Interleave(messages: seq<string>, texts: seq<string>): (turns: seq<Turn>)
    requires |messages| == |texts|
    decreases |messages|
  {
    if messages == [] then []
    else [Turn(User, messages[0]), Turn(Assistant, texts[0])] + Interleave(messages[1..], texts[1..])
  }

  /** Interleave holds exactly 2k turns, alternating user/assistant, with the contents in order. */
  lemma {:induction false} InterleaveAlternates(messages: seq<string>, texts: seq<string>)
    requires |messages| == |texts|
    ensures |Interleave(messages, texts)| == 2 * |messages|
    ensures forall j :: 0 <= j < |messages| ==>
              && Interleave(messages, texts)[2 * j] == Turn(User, messages[j])
              && Interleave(messages, texts)[2 * j + 1] == Turn(Assistant, texts[j])
    decreases |messages|
  {
    if messages != [] {
      InterleaveAlternates(messages[1..], texts[1..]);
      var rest := Interleave(messages[1..], texts[1..]);
      forall j | 1 <= j < |messages|
        ensures Interleave(messages, texts)[2 * j] == Turn(User, messages[j])
        ensures Interleave(messages, texts)[2 * j + 1] == Turn(Assistant, texts[j])
      {
        assert Interleave(messages, texts)[2 * j] == rest[2 * (j - 1)];
        assert Interleave(messages, texts)[2 * j + 1] == rest[2 * (j - 1) + 1];
      }
    }
  }

  /**
   * History-replay law of the Claude family: when every call succeeds with `texts[j]`, the
   * replies are those texts, the history grows by the interleaved turns, and the j-th request
   * carries the history before it, unchanged, followed by the new user turn.
   */
  lemma {:induction false} ClaudeReplay(modelId: string, history: seq<Turn>, messages: seq<string>,
                                        outcomes: seq<InvokeOutcome>, texts: seq<string>)
    requires !IsTitan(modelId)
    requires |messages| == |outcomes| == |texts|
    requires forall j :: 0 <= j < |outcomes| ==> Parse(outcomes[j], false) == Success(texts[j])
    ensures Converse(modelId, history, messages, outcomes).history == history + Interleave(messages, texts)
    ensures Converse(modelId, history, messages, outcomes).replies == texts
    ensures forall j :: 0 <= j < |messages| ==>
              Converse(modelId, history, messages, outcomes).bodies[j]
              == ClaudeBody(history + Interleave(messages[..j], texts[..j]) + [Turn(User, messages[j])])
    decreases |messages|
  {
    if messages != [] {
      var t := Converse(modelId, history, messages, outcomes);
      var x := Exchange(modelId, history, messages[0], outcomes[0]);
      var next := history + [Turn(User, messages[0]), Turn(Assistant, texts[0])];
      assert x.history == next;
      ClaudeReplay(modelId, next, messages[1..], outcomes[1..], texts[1..]);
      var rest := Converse(modelId, next, messages[1..], outcomes[1..]);
      assert Interleave(messages, texts) == [Turn(User, messages[0]), Turn(Assistant, texts[0])]
                                             + Interleave(messages[1..], texts[1..]);
      assert t.history == history + Interleave(messages, texts);
      forall j | 0 <= j < |messages|
        ensures t.bodies[j] == ClaudeBody(history + Interleave(messages[..j], texts[..j]) + [Turn(User, messages[j])])
      {
        if j == 0 {
          assert messages[..0] == [] && texts[..0] == [];
        } else {
          assert t.bodies[j] == rest.bodies[j - 1];
          InterleaveShift(messages, texts, j);
          Assoc(history, [Turn(User, messages[0]), Turn(Assistant, texts[0])],
                Interleave(messages[1..][..j - 1], texts[1..][..j - 1]));
        }
      }
    }
  }

  /** The first j exchanges are the first one followed by the j - 1 after it. */
  lemma InterleaveShift(messages: seq<string>, texts: seq<string>, j: nat)
    requires 0 < j <= |messages| == |texts|
    ensures Interleave(messages[..j], texts[..j])
            == [Turn(User, messages[0]), Turn(Assistant, texts[0])] + Interleave(messages[1..][..j - 1], texts[1..][..j - 1])
  {
    assert messages[1..][..j - 1] == messages[..j][1..];
    assert texts[1..][..j - 1] == texts[..j][1..];
  }

  /**
   * Titan family law: whatever the endpoint answers, every request carries only that call's
   * message and the history never changes.
   */
  lemma {:induction false} TitanStateless(modelId: string, history: seq<Turn>, messages: seq<string>,
                                          outcomes: seq<InvokeOutcome>)
    requires IsTitan(modelId)
    requires |messages| == |outcomes|
    ensures Converse(modelId, history, messages, outcomes).history == history
    ensures forall j :: 0 <= j < |messages| ==>
              Converse(modelId, history, messages, outcomes).bodies[j] == TitanBody(messages[j])
    decreases |messages|
  {
    if messages != [] {
      TitanStateless(modelId, history, messages[1..], outcomes[1..]);
    }
  }
}
