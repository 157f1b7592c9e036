/**
 * The chat loop of `main` (app.py:178-200) on a connected session.  The console is the list of
 * lines read and the list of texts shown; a KeyboardInterrupt is the end of that list.
 */
module Console {
  import opened Sequences
  import opened Adapter
  import opened Remote
  import opened Session
  import opened Commands

  /** The effect of one command on the session: the new history, the calls made, what is shown. */
  datatype Handled = Handled(history: seq<Turn>, calls: seq<Call>, shown: seq<string>)

  /** Carrying out `cmd` on a session of model `modelId` holding `history`, after `callIndex` calls. */
  function Perform(modelId: string, history: seq<Turn>, cmd: Command, callIndex: nat,
                   respond: (nat, string, RequestBody) -> InvokeOutcome): Handled
  {
    match cmd
    case Skip => Handled(history, [], [])
    case Quit => Handled(history, [], [])
    case Clear => Handled([], [], [ClearedReply])
    case Send(message) =>
      var body := RequestFor(modelId, history, message);
      var x := Exchange(modelId, history, message, respond(callIndex, modelId, body));
      Handled(x.history, [Call(modelId, body)], [x.reply])
  }

  /**
   * Only a message talks to the model, with the request built from the history so far; `clear`
   * empties the history and says so; blank lines and quit leave the history alone.
   */
  lemma PerformEffect(modelId: string, history: seq<Turn>, cmd: Command, callIndex: nat,
                      respond: (nat, string, RequestBody) -> InvokeOutcome)
    ensures var h := Perform(modelId, history, cmd, callIndex, respond);
            && |h.calls| <= 1 && (h.calls != [] <==> cmd.Send?)
            && |h.shown| == (if cmd.Send? || cmd == Clear then 1 else 0)
            && (cmd == Clear ==> h.history == [] && h.shown == [ClearedReply])
            && (cmd == Skip || cmd == Quit ==> h.history == history)
            && (cmd.Send? ==> h.calls[0] == Call(modelId, RequestFor(modelId, history, cmd.message)))
  {
  }

  /** Carries out one command on the session: the body of the chat loop after the checks. */
  method Execute(chatbot: Chatbot, cmd: Command) returns (shown: seq<string>)
    modifies chatbot, chatbot.endpoint
    ensures chatbot.modelId == old(chatbot.modelId)
    ensures var h := Perform(chatbot.modelId, old(chatbot.history), cmd, |old(chatbot.endpoint.calls)|,
                             chatbot.endpoint.respond);
            && shown == h.shown && chatbot.history == h.history
            && chatbot.endpoint.calls == old(chatbot.endpoint.calls) + h.calls
  {
    shown := [];
    match cmd
    case Skip =>
    case Quit =>
    case Clear =>
      var cleared := chatbot.ClearHistory();
      shown := [cleared];
    case Send(message) =>
      var response := chatbot.Chat(message);
      shown := [response];
  }

  /** How one command acts on a session: (history, command, calls made so far) to its effect. */
  type Stepper = (seq<Turn>, Command, nat) -> Handled

  /** The stepper of a session of model `modelId` talking to `respond`. */
  function SessionStep(modelId: string, respond: (nat, string, RequestBody) -> InvokeOutcome): Stepper
  {
    (history: seq<Turn>, cmd: Command, callIndex: nat) => Perform(modelId, history, cmd, callIndex, respond)
  }

  /** `step` acts as `Perform` does.  The trigger keeps the equation quiet until a `Perform` term is at hand. */
  ghost predicate StepAgrees(step: Stepper, modelId: string, respond: (nat, string, RequestBody) -> InvokeOutcome)
  {
    forall history, cmd, callIndex {:trigger Perform(modelId, history, cmd, callIndex, respond)} ::
      step(history, cmd, callIndex) == Perform(modelId, history, cmd, callIndex, respond)
  }

  lemma SessionStepAgrees(modelId: string, respond: (nat, string, RequestBody) -> InvokeOutcome)
    ensures StepAgrees(SessionStep(modelId, respond), modelId, respond)
  {
  }

  /** What the loop has done after reading `read` lines. */
  datatype LoopState = LoopState(read: nat, history: seq<Turn>, calls: seq<Call>, shown: seq<string>)

  /**
   * The chat loop over the commands of the lines typed: each is carried out in turn until
   * one says quit.
   */
  function ChatLoop(history: seq<Turn>, cmds: seq<Command>, callIndex: nat, step: Stepper): (s: LoopState)
    decreases |cmds|
  {
    if cmds == [] then LoopState(0, history, [], [])
    else if cmds[0] == Quit then LoopState(1, history, [], [])
    else
      var h := step(history, cmds[0], callIndex);
      var rest := ChatLoop(h.history, cmds[1..], callIndex + |h.calls|, step);
      LoopState(1 + rest.read, rest.history, h.calls + rest.calls, h.shown + rest.shown)
  }

  /**
   * The loop reads every line up to and including the first quit, and no further: it stops
   * early only at a quit, and no quit comes before that.
   */
  lemma {:induction false} ChatLoopStopsAtFirstQuit(history: seq<Turn>, cmds: seq<Command>, callIndex: nat,
                                                    step: Stepper)
    ensures var s := ChatLoop(history, cmds, callIndex, step);
            && s.read <= |cmds|
            && (s.read == 0 <==> cmds == [])
            && (forall j :: 0 <= j < s.read - 1 ==> cmds[j] != Quit)
            && (s.read < |cmds| ==> cmds[s.read - 1] == Quit)
    decreases |cmds|
  {
    if cmds != [] && cmds[0] != Quit {
      var h := step(history, cmds[0], callIndex);
      ChatLoopStopsAtFirstQuit(h.history, cmds[1..], callIndex + |h.calls|, step);
      var s := ChatLoop(history, cmds, callIndex, step);
      var rest := ChatLoop(h.history, cmds[1..], callIndex + |h.calls|, step);
      assert s.read == 1 + rest.read;
      forall j | 0 <= j < s.read - 1
        ensures cmds[j] != Quit
      {
        if j > 0 {
          assert cmds[j] == cmds[1..][j - 1];
        }
      }
    }
  }

  /** Once a quit command has been read, whatever follows it is ignored. */
  lemma {:induction false} CommandsAfterQuitIgnored(history: seq<Turn>, cmds: seq<Command>, more: seq<Command>,
                                                    callIndex: nat, step: Stepper, q: nat)
    requires q < |cmds| && cmds[q] == Quit
    ensures ChatLoop(history, cmds + more, callIndex, step) == ChatLoop(history, cmds, callIndex, step)
    decreases |cmds|
  {
    assert (cmds + more)[0] == cmds[0];
    if cmds[0] != Quit {
      var h := step(history, cmds[0], callIndex);
      assert (cmds + more)[1..] == cmds[1..] + more;
      CommandsAfterQuitIgnored(h.history, cmds[1..], more, callIndex + |h.calls|, step, q - 1);
    }
  }

  /** Unfolding `ChatLoop` at position `i` of the command list. */
  lemma ChatLoopStep(history: seq<Turn>, cmds: seq<Command>, i: nat, callIndex: nat, step: Stepper)
    requires i < |cmds|
    ensures var h := step(history, cmds[i], callIndex);
            var s := ChatLoop(history, cmds[i..], callIndex, step);
            var rest := ChatLoop(h.history, cmds[i + 1..], callIndex + |h.calls|, step);
            && (cmds[i] == Quit ==> s == LoopState(1, history, [], []))
            && (cmds[i] != Quit ==> s == LoopState(1 + rest.read, rest.history, h.calls + rest.calls, h.shown + rest.shown))
  {
    assert cmds[i..][0] == cmds[i];
    assert cmds[i..][1..] == cmds[i + 1..];
  }

  /** Whether `total` is what the loop does from the start, given it has read `read` lines so far. */
  ghost predicate Resumes(total: LoopState, cmds: seq<Command>, read: nat, history: seq<Turn>, callIndex: nat,
                          made: seq<Call>, shown: seq<string>, step: Stepper)
    requires read <= |cmds|
  {
    var s := ChatLoop(history, cmds[read..], callIndex, step);
    && total.read == read + s.read && total.history == s.history
    && total.calls == made + s.calls && total.shown == shown + s.shown
  }

  /** Carrying out a command other than quit advances the loop by one line. */
  lemma ResumesAfterStep(total: LoopState, cmds: seq<Command>, read: nat, history: seq<Turn>, callIndex: nat,
                         made: seq<Call>, shown: seq<string>, step: Stepper)
    requires read < |cmds| && cmds[read] != Quit
    requires Resumes(total, cmds, read, history, callIndex, made, shown, step)
    ensures var h := step(history, cmds[read], callIndex);
            Resumes(total, cmds, read + 1, h.history, callIndex + |h.calls|, made + h.calls, shown + h.shown, step)
  {
    var h := step(history, cmds[read], callIndex);
    ChatLoopStep(history, cmds, read, callIndex, step);
    var rest := ChatLoop(h.history, cmds[read + 1..], callIndex + |h.calls|, step);
    Assoc(made, h.calls, rest.calls);
    Assoc(shown, h.shown, rest.shown);
  }

  /** A quit command ends the loop where it stands. */
  lemma ResumesAtQuit(total: LoopState, cmds: seq<Command>, read: nat, history: seq<Turn>, callIndex: nat,
                      made: seq<Call>, shown: seq<string>, step: Stepper)
    requires read < |cmds| && cmds[read] == Quit
    requires Resumes(total, cmds, read, history, callIndex, made, shown, step)
    ensures total == LoopState(read + 1, history, made, shown)
  {
    ChatLoopStep(history, cmds, read, callIndex, step);
  }

  /**
   * The chat loop of `main` on a connected session.  Returns how many lines were read and the
   * texts shown in reply.
   */
  method RunChat(chatbot: Chatbot, lines: seq<string>) returns (read: nat, shown: seq<string>)
    modifies chatbot, chatbot.endpoint
    ensures chatbot.modelId == old(chatbot.modelId)
    ensures var s := ChatLoop(old(chatbot.history), DispatchAll(lines), |old(chatbot.endpoint.calls)|,
                              SessionStep(chatbot.modelId, chatbot.endpoint.respond));
            && read == s.read && shown == s.shown && chatbot.history == s.history
            && chatbot.endpoint.calls == old(chatbot.endpoint.calls) + s.calls
  {
    SessionStepAgrees(chatbot.modelId, chatbot.endpoint.respond);
    read, shown := RunLines(chatbot, lines, Dispatch, DispatchAll(lines),
                            SessionStep(chatbot.modelId, chatbot.endpoint.respond));
  }

  /**
   * The loop of `RunChat`.  The classifier is passed in as `dispatch` and the session's step as
   * `step`, so that the loop's proof works with what they return and not how.
   */
  method RunLines(chatbot: Chatbot, lines: seq<string>, dispatch: string -> Command, ghost cmds: seq<Command>,
                  ghost step: Stepper)
      returns (read: nat, shown: seq<string>)
    requires |cmds| == |lines| && forall i :: 0 <= i < |lines| ==> cmds[i] == dispatch(lines[i])
    requires StepAgrees(step, chatbot.modelId, chatbot.endpoint.respond)
    modifies chatbot, chatbot.endpoint
    ensures chatbot.modelId == old(chatbot.modelId)
    ensures var s := ChatLoop(old(chatbot.history), cmds, |old(chatbot.endpoint.calls)|, step);
            && read == s.read && shown == s.shown && chatbot.history == s.history
            && chatbot.endpoint.calls == old(chatbot.endpoint.calls) + s.calls
  {
    ghost var mid, respond := chatbot.modelId, chatbot.endpoint.respond;
    ghost var total := ChatLoop(chatbot.history, cmds, |chatbot.endpoint.calls|, step);
    read, shown := 0, [];
    ghost var made: seq<Call> := [];
    assert cmds[0..] == cmds;
    while read < |lines|
      invariant read <= |lines|
      invariant chatbot.modelId == mid
      invariant chatbot.endpoint.calls == old(chatbot.endpoint.calls) + made
      invariant Resumes(total, cmds, read, chatbot.history, |chatbot.endpoint.calls|, made, shown, step)
      decreases |lines| - read
    {
      ghost var hist, k := chatbot.history, |chatbot.endpoint.calls|;
      var cmd := dispatch(lines[read]);
      assert cmd == cmds[read];
      if cmd == Quit {
        ResumesAtQuit(total, cmds, read, hist, k, made, shown, step);
        read := read + 1;
        return;
      }
      ghost var h := Perform(mid, hist, cmd, k, respond);
      assert step(hist, cmd, k) == h;
      var out := Execute(chatbot, cmd);
      assert out == h.shown && chatbot.history == h.history;
      assert chatbot.endpoint.calls == old(chatbot.endpoint.calls) + made + h.calls;
      ResumesAfterStep(total, cmds, read, hist, k, made, shown, step);
      Assoc(old(chatbot.endpoint.calls), made, h.calls);
      assert |chatbot.endpoint.calls| == k + |h.calls|;
      made, shown, read := made + h.calls, shown + out, read + 1;
    }
    assert cmds[read..] == [];
  }
}
