/**
 * Model negotiation, the candidate loop of `main` (app.py:107-154): try each candidate in
 * order on a fresh session, probe it with "Hi" and then "Test", and commit to the first one
 * whose two replies carry no failure marker.
 *
 * `Attempts` is the reference definition: the list of attempts the loop makes.  The method
 * `Negotiate` is the loop itself, proved to make exactly those attempts and those calls.
 */
module Negotiator {
  import opened Wrappers
  import opened Adapter
  import opened Remote
  import opened Markers
  import opened Session

  datatype Candidate = Candidate(modelId: string, displayName: string)

  /** The candidate list of `main`, in preference order. */
  const ModelsToTry := [
    Candidate("anthropic.claude-3-7-sonnet-20250219-v1:0", "Claude 3.7 Sonnet"),
    Candidate("anthropic.claude-3-5-sonnet-20241022-v2:0", "Claude 3.5 Sonnet v2"),
    Candidate("anthropic.claude-3-5-haiku-20241022-v1:0", "Claude 3.5 Haiku"),
    Candidate("anthropic.claude-3-sonnet-20240229-v1:0", "Claude 3 Sonnet"),
    Candidate("anthropic.claude-3-haiku-20240307-v1:0", "Claude 3 Haiku")
  ]

  const FirstProbe := "Hi"
  const SecondProbe := "Test"

  /** How trying one candidate ended. */
  datatype AttemptOutcome =
    | ConstructionFailed                       // `BedrockChatbot(...)` raised
    | RejectedFirst(verdict: ProbeVerdict)     // the "Hi" reply carried a marker
    | RejectedSecond(verdict: ProbeVerdict)    // the "Test" reply carried a marker
    | Committed

  /** One candidate tried: how it ended, the calls it made and the replies it got. */
  datatype Attempt = Attempt(candidate: Candidate, outcome: AttemptOutcome, calls: seq<Call>, replies: seq<string>)

  /**
   * Trying candidate `c`, the `position`-th of the list, when `callIndex` endpoint calls have
   * already been made.  `clientFails(position)` says whether constructing its session raises.
   */
  function TryCandidate(c: Candidate, position: nat, callIndex: nat,
                        respond: (nat, string, RequestBody) -> InvokeOutcome,
                        clientFails: nat -> bool): (a: Attempt)
    ensures a.candidate == c
    ensures |a.calls| == |a.replies| <= 2
    ensures a.outcome == ConstructionFailed <==> clientFails(position)
    ensures a.calls == [] <==> clientFails(position)
    ensures a.outcome.RejectedFirst? <==> |a.calls| == 1
    ensures a.outcome.RejectedFirst? ==> a.outcome.verdict == Classify(a.replies[0]) != Usable
    ensures a.outcome.RejectedSecond? ==>
              Classify(a.replies[0]) == Usable && a.outcome.verdict == Classify(a.replies[1]) != Usable
    ensures a.outcome == Committed <==>
              |a.replies| == 2 && Classify(a.replies[0]) == Usable && Classify(a.replies[1]) == Usable
    ensures forall call <- a.calls :: call.modelId == ResolveModelId(Some(c.modelId))
    ensures a.calls != [] ==> a.calls[0].body == RequestFor(ResolveModelId(Some(c.modelId)), [], FirstProbe)
    ensures a.calls != [] ==>
              var id := ResolveModelId(Some(c.modelId));
              a.replies[0] == Exchange(id, [], FirstProbe, respond(callIndex, id, a.calls[0].body)).reply
    ensures |a.calls| == 2 ==>
              var id := ResolveModelId(Some(c.modelId));
              var x1 := Exchange(id, [], FirstProbe, respond(callIndex, id, a.calls[0].body));
              && a.calls[1].body == RequestFor(id, x1.history, SecondProbe)
              && a.replies[1] == Exchange(id, x1.history, SecondProbe, respond(callIndex + 1, id, a.calls[1].body)).reply
  {
    if clientFails(position) then Attempt(c, ConstructionFailed, [], [])
    else
      var id := ResolveModelId(Some(c.modelId));
      var body1 := RequestFor(id, [], FirstProbe);
      var x1 := Exchange(id, [], FirstProbe, respond(callIndex, id, body1));
      if Classify(x1.reply) != Usable then
        Attempt(c, RejectedFirst(Classify(x1.reply)), [Call(id, body1)], [x1.reply])
      else
        var body2 := RequestFor(id, x1.history, SecondProbe);
        var x2 := Exchange(id, x1.history, SecondProbe, respond(callIndex + 1, id, body2));
        var outcome := if Classify(x2.reply) != Usable then RejectedSecond(Classify(x2.reply)) else Committed;
        Attempt(c, outcome, [Call(id, body1), Call(id, body2)], [x1.reply, x2.reply])
  }

  /**
   * For a Claude-family candidate that is committed, the second probe replays the first
   * exchange: its messages are the "Hi" turn, the first reply and the "Test" turn.
   */
  lemma CommittedClaudeProbesReplay(c: Candidate, position: nat, callIndex: nat,
                                    respond: (nat, string, RequestBody) -> InvokeOutcome,
                                    clientFails: nat -> bool)
    requires !IsTitan(ResolveModelId(Some(c.modelId)))
    requires TryCandidate(c, position, callIndex, respond, clientFails).outcome == Committed
    ensures var a := TryCandidate(c, position, callIndex, respond, clientFails);
            a.calls[1].body == ClaudeBody([Turn(User, FirstProbe), Turn(Assistant, a.replies[0]), Turn(User, SecondProbe)])
  {
    var id := ResolveModelId(Some(c.modelId));
    var body1 := RequestFor(id, [], FirstProbe);
    var o1 := respond(callIndex, id, body1);
    var x1 := Exchange(id, [], FirstProbe, o1);
    assert Parse(o1, false).Success?;
    assert x1.history == [Turn(User, FirstProbe), Turn(Assistant, x1.reply)];
  }

  /** The calls made by a sequence of attempts, in order. */
  function CallsOf(attempts: seq<Attempt>): (calls: seq<Call>)
    decreases |attempts|
  {
    if attempts == [] then [] else attempts[0].calls + CallsOf(attempts[1..])
  }

  lemma {:induction false} CallsOfAppend(attempts: seq<Attempt>, a: Attempt)
    ensures CallsOf(attempts + [a]) == CallsOf(attempts) + a.calls
    decreases |attempts|
  {
    if attempts == [] {
      assert [a][1..] == [];
    } else {
      assert (attempts + [a])[1..] == attempts[1..] + [a];
      CallsOfAppend(attempts[1..], a);
    }
  }

  /** Appending an attempt appends its calls to the log. */
  lemma CallsGrow(log: seq<Call>, attempts: seq<Attempt>, a: Attempt)
    ensures log + CallsOf(attempts + [a]) == (log + CallsOf(attempts)) + a.calls
  {
    CallsOfAppend(attempts, a);
  }

  /**
   * With the candidate list of `main`, negotiation tries at most its five candidates and so
   * makes at most ten endpoint calls, whatever the endpoint answers.
   */
  lemma MainListCallBound(callIndex: nat, respond: (nat, string, RequestBody) -> InvokeOutcome,
                          clientFails: nat -> bool)
    ensures var trace := Attempts(ModelsToTry, 0, callIndex, MainTrier(respond, clientFails));
            |trace| <= 5 && |CallsOf(trace)| <= 10
  {
    MainTrierWellBehaved(respond, clientFails);
    AttemptsShape(ModelsToTry, 0, callIndex, MainTrier(respond, clientFails));
  }

  /** How one candidate is tried: (candidate, its position, calls made so far) to the attempt. */
  type Trier = (Candidate, nat, nat) -> Attempt

  /** The trier of `main`: `TryCandidate` against the given endpoint and construction oracle. */
  function MainTrier(respond: (nat, string, RequestBody) -> InvokeOutcome, clientFails: nat -> bool): Trier
  {
    (c: Candidate, position: nat, callIndex: nat) => TryCandidate(c, position, callIndex, respond, clientFails)
  }

  /**
   * `try` tries every candidate as `TryCandidate` does against these oracles.  The
   * trigger keeps the equation from firing until a `TryCandidate` term is at hand.
   */
  ghost predicate Agrees(try: Trier, respond: (nat, string, RequestBody) -> InvokeOutcome, clientFails: nat -> bool)
  {
    forall c, position, callIndex {:trigger TryCandidate(c, position, callIndex, respond, clientFails)} ::
      try(c, position, callIndex) == TryCandidate(c, position, callIndex, respond, clientFails)
  }

  lemma MainTrierAgrees(respond: (nat, string, RequestBody) -> InvokeOutcome, clientFails: nat -> bool)
    ensures Agrees(MainTrier(respond, clientFails), respond, clientFails)
  {
  }

  /** A trier that keeps to the probing protocol's bounds: the right candidate, at most two calls. */
  ghost predicate WellBehaved(try: Trier)
  {
    forall c, position, callIndex :: try(c, position, callIndex).candidate == c && |try(c, position, callIndex).calls| <= 2
  }

  lemma MainTrierWellBehaved(respond: (nat, string, RequestBody) -> InvokeOutcome, clientFails: nat -> bool)
    ensures WellBehaved(MainTrier(respond, clientFails))
  {
  }

  /** The attempts the loop makes, from the `from`-th candidate on, after `callIndex` calls. */
  function Attempts(candidates: seq<Candidate>, from: nat, callIndex: nat, try: Trier): (trace: seq<Attempt>)
    decreases |candidates| - from
  {
    if from >= |candidates| then []
    else
      var a := try(candidates[from], from, callIndex);
      if a.outcome == Committed then [a]
      else [a] + Attempts(candidates, from + 1, callIndex + |a.calls|, try)
  }

  /** The loop ended by committing to the last candidate it tried. */
  predicate Commits(trace: seq<Attempt>)
  {
    trace != [] && trace[|trace| - 1].outcome == Committed
  }

  /**
   * Negotiation stops at the first commit, so no later candidate is constructed or probed; it
   * stops short of the end of the list only by committing; and it makes at most two endpoint
   * calls per candidate tried.
   */
  lemma AttemptsShape(candidates: seq<Candidate>, from: nat, callIndex: nat, try: Trier)
    requires from <= |candidates| && WellBehaved(try)
    ensures |Attempts(candidates, from, callIndex, try)| <= |candidates| - from
    ensures forall j :: 0 <= j < |Attempts(candidates, from, callIndex, try)| - 1 ==>
              Attempts(candidates, from, callIndex, try)[j].outcome != Committed
    ensures Commits(Attempts(candidates, from, callIndex, try))
            || |Attempts(candidates, from, callIndex, try)| == |candidates| - from
    ensures |CallsOf(Attempts(candidates, from, callIndex, try))| <= 2 * |Attempts(candidates, from, callIndex, try)|
  {
    AttemptsLength(candidates, from, callIndex, try);
    AttemptsCommitOnlyLast(candidates, from, callIndex, try);
    AttemptsCallBound(candidates, from, callIndex, try);
  }

  lemma {:induction false} AttemptsLength(candidates: seq<Candidate>, from: nat, callIndex: nat, try: Trier)
    requires from <= |candidates|
    ensures var trace := Attempts(candidates, from, callIndex, try);
            && |trace| <= |candidates| - from
            && (Commits(trace) || |trace| == |candidates| - from)
    decreases |candidates| - from
  {
    if from < |candidates| {
      var a := try(candidates[from], from, callIndex);
      if a.outcome != Committed {
        var k := callIndex + |a.calls|;
        var rest := Attempts(candidates, from + 1, k, try);
        AttemptsLength(candidates, from + 1, k, try);
        var trace := [a] + rest;
        assert Attempts(candidates, from, callIndex, try) == trace;
        if rest != [] {
          assert trace[|trace| - 1] == rest[|rest| - 1];
        }
      }
    }
  }

  lemma {:induction false} AttemptsCommitOnlyLast(candidates: seq<Candidate>, from: nat, callIndex: nat, try: Trier)
    ensures forall j :: 0 <= j < |Attempts(candidates, from, callIndex, try)| - 1 ==>
              Attempts(candidates, from, callIndex, try)[j].outcome != Committed
    decreases |candidates| - from
  {
    if from < |candidates| {
      var a := try(candidates[from], from, callIndex);
      if a.outcome != Committed {
        var k := callIndex + |a.calls|;
        var rest := Attempts(candidates, from + 1, k, try);
        AttemptsCommitOnlyLast(candidates, from + 1, k, try);
        var trace := [a] + rest;
        assert Attempts(candidates, from, callIndex, try) == trace;
        forall j | 0 <= j < |trace| - 1
          ensures trace[j].outcome != Committed
        {
          if j == 0 {
            assert trace[0] == a;
          } else {
            assert trace[j] == rest[j - 1];
            assert rest[j - 1].outcome != Committed;
          }
        }
      }
    }
  }

  lemma {:induction false} AttemptsCallBound(candidates: seq<Candidate>, from: nat, callIndex: nat, try: Trier)
    requires WellBehaved(try)
    ensures var trace := Attempts(candidates, from, callIndex, try);
            |CallsOf(trace)| <= 2 * |trace|
    decreases |candidates| - from
  {
    if from < |candidates| {
      var a := try(candidates[from], from, callIndex);
      assert |a.calls| <= 2;
      if a.outcome == Committed {
        assert CallsOf([a]) == a.calls + CallsOf([]);
      } else {
        var k := callIndex + |a.calls|;
        var rest := Attempts(candidates, from + 1, k, try);
        AttemptsCallBound(candidates, from + 1, k, try);
        var trace := [a] + rest;
        assert trace[1..] == rest;
        assert CallsOf(trace) == a.calls + CallsOf(rest);
      }
    }
  }

  /**
   * Candidates are tried in list order: the j-th attempt is the trier on the j-th candidate,
   * at the call index the attempts before it leave behind.
   */
  lemma {:induction false} AttemptsAreTries(candidates: seq<Candidate>, from: nat, callIndex: nat,
                                            try: Trier, j: nat)
    requires from <= |candidates|
    requires j < |Attempts(candidates, from, callIndex, try)|
    ensures var trace := Attempts(candidates, from, callIndex, try);
            && from + j < |candidates|
            && trace[j] == try(candidates[from + j], from + j, callIndex + |CallsOf(trace[..j])|)
    decreases j
  {
    var trace := Attempts(candidates, from, callIndex, try);
    var a := try(candidates[from], from, callIndex);
    if j == 0 {
      assert trace[..0] == [];
    } else {
      var k := callIndex + |a.calls|;
      var rest := Attempts(candidates, from + 1, k, try);
      assert trace == [a] + rest;
      AttemptsAreTries(candidates, from + 1, k, try, j - 1);
      assert trace[..j][1..] == rest[..j - 1];
      assert CallsOf(trace[..j]) == a.calls + CallsOf(rest[..j - 1]);
    }
  }

  /** When nothing is committed, every candidate was tried and rejected. */
  lemma NoCommitMeansAllRejected(candidates: seq<Candidate>, callIndex: nat,
                                 try: Trier)
    requires WellBehaved(try)
    requires !Commits(Attempts(candidates, 0, callIndex, try))
    ensures var trace := Attempts(candidates, 0, callIndex, try);
            && |trace| == |candidates|
            && (forall j :: 0 <= j < |trace| ==> trace[j].candidate == candidates[j] && trace[j].outcome != Committed)
            && |CallsOf(trace)| <= 2 * |candidates|
  {
    var trace := Attempts(candidates, 0, callIndex, try);
    AttemptsShape(candidates, 0, callIndex, try);
    forall j | 0 <= j < |trace|
      ensures trace[j].candidate == candidates[j] && trace[j].outcome != Committed
    {
      AttemptsAreTries(candidates, 0, callIndex, try, j);
    }
  }

  /**
   * One pass of the candidate loop of `main`: build a session for `c`, probe it twice and,
   * when both replies are clean, clear its history and hand it back; otherwise null.
   */
  method TryOne(c: Candidate, position: nat, endpoint: Endpoint, clientFails: nat -> bool)
    returns (session: Chatbot?, ghost a: Attempt)
    modifies endpoint
    ensures a == TryCandidate(c, position, |old(endpoint.calls)|, endpoint.respond, clientFails)
    ensures && endpoint.calls == old(endpoint.calls) + a.calls
            && (session != null <==> a.outcome == Committed)
            && (session != null ==>
                  && fresh(session) && session.endpoint == endpoint && session.history == []
                  && session.modelId == ResolveModelId(Some(c.modelId)))
  {
    session := null;
    a := TryCandidate(c, position, |endpoint.calls|, endpoint.respond, clientFails);
    if clientFails(position) {
      return;
    }
    var temp := new Chatbot(DefaultRegion, Some(c.modelId), endpoint);
    var test1 := temp.Chat(FirstProbe);
    // payment pending or not accessible: give up on this candidate
    if Classify(test1) != Usable {
      return;
    }
    var test2 := temp.Chat(SecondProbe);
    if Classify(test2) != Usable {
      return;
    }
    session := temp;
    var _ := session.ClearHistory();
  }

  /**
   * The candidate loop of `main`.  Returns the committed session (with its history cleared)
   * and the display name of its model, or null and None when no candidate passes.
   */
  method Negotiate(candidates: seq<Candidate>, endpoint: Endpoint, clientFails: nat -> bool)
    returns (chatbot: Chatbot?, workingModel: Option<string>)
    modifies endpoint
    ensures var trace := Attempts(candidates, 0, |old(endpoint.calls)|, MainTrier(endpoint.respond, clientFails));
            && endpoint.calls == old(endpoint.calls) + CallsOf(trace)
            && (chatbot != null <==> Commits(trace))
            && (chatbot == null ==> workingModel == None)
            && (chatbot != null ==>
                  && fresh(chatbot) && chatbot.endpoint == endpoint && chatbot.history == []
                  && chatbot.modelId == ResolveModelId(Some(trace[|trace| - 1].candidate.modelId))
                  && workingModel == Some(trace[|trace| - 1].candidate.displayName))
  {
    chatbot, workingModel := null, None;
    ghost var start := |endpoint.calls|;
    ghost var try := MainTrier(endpoint.respond, clientFails);
    MainTrierAgrees(endpoint.respond, clientFails);
    ghost var done: seq<Attempt> := [];
    for i := 0 to |candidates|
      invariant |done| == i
      invariant endpoint.calls == old(endpoint.calls) + CallsOf(done)
      invariant Follows(candidates, 0, start, done, try)
      invariant NoneCommitted(done)
      invariant chatbot == null && workingModel == None
    {
      var c := candidates[i];
      ghost var k := |endpoint.calls|;
      assert k == start + |CallsOf(done)|;
      ghost var a;
      var session;
      session, a := TryOne(c, i, endpoint, clientFails);
      assert a == try(c, i, k);
      FollowsAppend(candidates, 0, start, done, k, a, try);
      CallsGrow(old(endpoint.calls), done, a);
      if session != null {
        chatbot, workingModel := session, Some(c.displayName);
        FollowsIsAttempts(candidates, 0, start, done, [a], try);
        return;
      }
      done := done + [a];
    }
    assert done + [] == done;
    FollowsIsAttempts(candidates, 0, start, done, [], try);
  }

  /**
   * `trace` tries the candidates in order from the `from`-th on, each at the call index its
   * predecessors leave behind.
   */
  ghost predicate Follows(candidates: seq<Candidate>, from: nat, callIndex: nat, trace: seq<Attempt>, try: Trier)
    decreases |trace|
  {
    trace == []
    || (&& from < |candidates|
        && trace[0] == try(candidates[from], from, callIndex)
        && Follows(candidates, from + 1, callIndex + |trace[0].calls|, trace[1..], try))
  }

  lemma {:induction false} FollowsAppend(candidates: seq<Candidate>, from: nat, callIndex: nat,
                                         trace: seq<Attempt>, k: nat, a: Attempt, try: Trier)
    requires Follows(candidates, from, callIndex, trace, try)
    requires from + |trace| < |candidates|
    requires k == callIndex + |CallsOf(trace)|
    requires a == try(candidates[from + |trace|], from + |trace|, k)
    ensures Follows(candidates, from, callIndex, trace + [a], try)
    ensures CallsOf(trace + [a]) == CallsOf(trace) + a.calls
    decreases |trace|
  {
    CallsOfAppend(trace, a);
    if trace == [] {
      assert [a][1..] == [];
    } else {
      assert (trace + [a])[1..] == trace[1..] + [a];
      assert CallsOf(trace) == trace[0].calls + CallsOf(trace[1..]);
      FollowsAppend(candidates, from + 1, callIndex + |trace[0].calls|, trace[1..], k, a, try);
    }
  }

  /** No attempt in `trace` committed. */
  predicate NoneCommitted(trace: seq<Attempt>)
  {
    forall a <- trace :: a.outcome != Committed
  }

  /**
   * A run that follows the candidate list, none of whose attempts committed, and that then
   * either commits once more or has reached the end of the list, is the one `Attempts`
   * describes.
   */
  lemma {:induction false} FollowsIsAttempts(candidates: seq<Candidate>, from: nat, callIndex: nat,
                                             done: seq<Attempt>, last: seq<Attempt>, try: Trier)
    requires Follows(candidates, from, callIndex, done + last, try)
    requires NoneCommitted(done)
    requires || (last == [] && from + |done| == |candidates|)
             || (|last| == 1 && last[0].outcome == Committed)
    ensures done + last == Attempts(candidates, from, callIndex, try)
    decreases |done|
  {
    var trace := done + last;
    if done == [] {
      assert trace == last;
    } else {
      var a := done[0];
      assert trace[0] == a && trace[1..] == done[1..] + last;
      FollowsIsAttempts(candidates, from + 1, callIndex + |a.calls|, done[1..], last, try);
      assert trace == [a] + (done[1..] + last);
    }
  }
}
