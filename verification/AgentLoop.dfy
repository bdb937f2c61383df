/** The agent loop: request, tool, history, chaining (letta/agent.py:236-275, 300-855, 857-1072, 1107-1172). */
module AgentLoop {
  import opened Wrappers
  import opened Sequences
  import opened AgentModel
  import opened AgentRecords

  datatype ReplyOutcome = NoToolsLeft | Answer(reply: ModelReply, totalTokens: nat) | NoReply(error: Failure)

  datatype Handling = Messages(reply: seq<Message>, heartbeat: bool, failed: bool) | HandlerRaised(error: Failure)

  datatype Run = Finished(usage: nat, stepCount: nat, stepsMessages: seq<seq<Message>>) | RaisedOut(error: Failure) | Unfinished

  class Agent {
    const settings: Settings

    var history: seq<Message>
    var toolCallHistory: seq<Option<string>>
    var lastFunctionResponse: Option<string>
    var alertedAboutMemoryPressure: bool
    ghost var modelCalls: nat

    constructor (settings: Settings, history: seq<Message>, toolCallHistory: seq<Option<string>>)
      ensures this.settings == settings && Now() == State(history, toolCallHistory, None, false)
    {
      this.settings := settings;
      this.history := history;
      this.toolCallHistory := toolCallHistory;
      lastFunctionResponse, alertedAboutMemoryPressure := None, false;
    }

    function Now(): State
      reads this
    {
      State(history, toolCallHistory, lastFunctionResponse, alertedAboutMemoryPressure)
    }

    // ------------------------------------------------------------------- summarizing

    method SummarizeMessagesInplace(s: Summary) returns (error: Option<Failure>)
      requires HasSystem(history)
      modifies this`history, this`alertedAboutMemoryPressure
      ensures HasSystem(history)
      ensures error == None <==> s.Summarized? && |old(history)| > 1
      ensures error == None ==> history == Summarize(old(history), s.cutoff, s.text) && !alertedAboutMemoryPressure
      ensures error.Some? ==> error.value == settings.SummaryError(s, old(history))
      ensures error.Some? ==> history == old(history) && alertedAboutMemoryPressure == old(alertedAboutMemoryPressure)
    {
      TrimmedSame(history);
      if |history| - 1 == 0 { return Some(settings.nothingToSummarize); }
      match s
      case NotSummarized(e) => return Some(e);
      case Summarized(cutoff, text) =>
        SummarizeTrims(history, cutoff, text);
        var kept := [history[0]] + history[Cutoff(history, cutoff)..];
        history := [kept[0]] + [Message(User, text, None, true)] + kept[1..];
        alertedAboutMemoryPressure := false;
        return None;
    }

    // --------------------------------------------------------------------- the request

    /** _get_ai_reply: the first answer that is not retried.  What was offered is reported;
        nothing is offered without a request. */
    method GetAiReply(a: Attempt, lastFunctionFailed: bool) returns (r: ReplyOutcome, ghost offered: Option<seq<string>>)
      requires HasSystem(history)
      modifies this`history, this`alertedAboutMemoryPressure, this`modelCalls
      ensures HasSystem(history)
      ensures var offer, n := settings.OfferIn(old(Now()), lastFunctionFailed), modelCalls - old(modelCalls);
              && settings.Asked(a, offer, n)
              && offered == (if n > 0 then Some(offer.functions) else None)
              && (r.NoToolsLeft? <==> offer.NoneLeft?)
              && (r.Answer? <==> settings.Answered(a, old(history), n))
              && (r.Answer? ==> a.answers(n) == Replies(r.reply, r.totalTokens))
              && (r.NoReply? ==> r.error == settings.NoReplyError(a, old(history), offer, n))
      ensures if r.Answer? && r.totalTokens > settings.contextWindow
              then history == Summarize(old(history), a.afterReply.cutoff, a.afterReply.text) && !alertedAboutMemoryPressure
              else history == old(history) && alertedAboutMemoryPressure == old(alertedAboutMemoryPressure)
    {
      offered := None;
      var offer := OfferTools(settings.rules, settings.tools, toolCallHistory, lastFunctionResponse, lastFunctionFailed);
      if offer.RulesRaise? { return NoReply(Failure(false)), None; }
      if offer.NoneLeft? { return NoToolsLeft, None; }
      for attempt := 1 to settings.requestLimit + 1
        invariant modelCalls == old(modelCalls) + (attempt - 1)
        invariant history == old(history) && alertedAboutMemoryPressure == old(alertedAboutMemoryPressure)
        invariant forall k :: 1 <= k < attempt ==> a.answers(k).Retryable?
        invariant offered == if attempt > 1 then Some(offer.functions) else None
        invariant settings.requestLimit > 0 ==> attempt <= settings.requestLimit
      {
        modelCalls, offered := modelCalls + 1, Some(offer.functions);
        match a.answers(attempt) {
          case Retryable =>
            if attempt >= settings.requestLimit { return NoReply(a.exhausted), offered; }
          case Fails(e) =>
            return NoReply(e), offered;
          case Replies(reply, totalTokens) =>
            if totalTokens > settings.contextWindow {
              var error := SummarizeMessagesInplace(a.afterReply);
              if error.Some? { return NoReply(error.value), offered; }
            }
            return Answer(reply, totalTokens), offered;
        }
      }
      r := NoReply(a.exhausted);
    }

    // -------------------------------------------------------------------- the response

    /** _handle_function_error_response: register the call, answer it with the error. */
    method HandleFunctionError(call: Message, name: string, error: string, response: string) returns (reply: seq<Message>)
      requires call.role == Assistant && call.callId.Some?
      modifies this`toolCallHistory, this`lastFunctionResponse
      ensures toolCallHistory == old(toolCallHistory) + [Some(name)] && lastFunctionResponse == Some(response)
      ensures IsReply(reply) && reply == [call, Message(Tool, error, call.callId, false)]
    {
      lastFunctionResponse := Some(response);
      toolCallHistory := toolCallHistory + [Some(name)];
      reply := [call] + [Message(Tool, error, call.callId, false)];
    }

    /** _handle_ai_response: one registered call per response that is handled, and a paired reply. */
    method HandleAiResponse(r: ModelReply, a: Attempt) returns (h: Handling)
      requires HasSystem(history)
      modifies this`history, this`toolCallHistory, this`lastFunctionResponse
      ensures HasSystem(history) && history == settings.HandledHistory(r, a, old(history))
      ensures toolCallHistory == old(toolCallHistory) + if settings.Registers(r, a) then [CalledName(r)] else []
      ensures lastFunctionResponse ==
        if settings.RaisesAtOnce(r, a.toolRun) then old(lastFunctionResponse) else settings.Remembered(r, a.toolRun, old(lastFunctionResponse))
      ensures h.HandlerRaised? <==> !settings.Registers(r, a) || (!settings.ToolFails(r, a.toolRun) && a.ruleQueries.Some?)
      ensures h.HandlerRaised? ==> h.error == settings.ResponseError(r, a)
      ensures h.Messages? ==>
        && IsReply(h.reply) && h.reply == settings.ReplyTo(r, a.toolRun)
        && (h.failed <==> settings.ToolFails(r, a.toolRun))
        && (h.heartbeat <==> !h.failed && settings.WantsHeartbeat(r, a))
    {
      var reply: seq<Message>;
      var heartbeat, name := false, None;
      match r {
        case FunctionCall => return HandlerRaised(Failure(false));
        case Says(text) =>
          reply := [Message(Assistant, text, None, false)];
        case ToolCall(id, toolName, text) =>
          if id == None { return HandlerRaised(Failure(false)); }
          var call := Message(Assistant, text, id, false);
          if toolName !in settings.tools || a.toolRun.NotInStore? {
            reply := HandleFunctionError(call, toolName, "No function named " + toolName, "None");
            return Messages(reply, false, true);
          }
          match a.toolRun {
            case NotInStore => assert false;
            case BadArguments =>
              reply := HandleFunctionError(call, toolName, "Error parsing JSON arguments", "None");
              return Messages(reply, false, true);
            case Escapes(e) => return HandlerRaised(e);
            case ErrorStatus(response) =>
              reply := HandleFunctionError(call, toolName, response, response);
              return Messages(reply, false, true);
            case Invalid(message, response) =>
              reply := HandleFunctionError(call, toolName, message, response);
              return Messages(reply, false, true);
            case ErrorText(response) =>
              reply := HandleFunctionError(call, toolName, response, response);
              return Messages(reply, false, true);
            case Returns(response, wantsHeartbeat) =>
              reply := [call] + [Message(Tool, response, id, false)];
              lastFunctionResponse := Some(response);
              heartbeat, name := wantsHeartbeat, Some(toolName);
          }
      }
      if a.rebuilt.Err? { return HandlerRaised(a.rebuilt.error); }
      history := WithSystem(history, a.rebuilt.value);
      toolCallHistory := toolCallHistory + [name];
      if a.ruleQueries.Some? { return HandlerRaised(a.ruleQueries.value); }
      if settings.rules.hasChildren(name) { heartbeat := true; }
      else if settings.rules.isTerminal(name) { heartbeat := false; }
      if settings.rules.isContinue(name) { heartbeat := true; }
      h := Messages(reply, heartbeat, false);
    }

    // ---------------------------------------------------------------------- inner_step

    /** The try block of inner_step: refresh the system message, then ask and record. */
    method TryStep(messages: seq<Message>, a: Attempt, lastFunctionFailed: bool) returns (o: StepOutcome, ghost y: Try)
      requires HasSystem(history)
      modifies this
      ensures y.start == old(Now()) && y.end == Now() && y.tried == o == y.outcome && !y.again
      ensures settings.BlockTrue(a, messages, lastFunctionFailed, y)
      ensures o.StepRaised? ==> history == y.base
      ensures alertedAboutMemoryPressure <==> settings.AlertedIn(a, y)
      ensures HasSystem(history) && modelCalls == old(modelCalls) + y.requests
    {
      if a.refresh.Some? {
        o := StepRaised(a.refresh.value);
        y := Try(Now(), None, 0, history, [], o, false, o, Now());
        return;
      }
      ghost var start := Now();
      history := WithSystem(history, a.systemText);
      o, y := AskAndRecord(messages, a, lastFunctionFailed);
      RefreshedBlock(a, messages, lastFunctionFailed, y, start);
      y := y.(start := start);
    }

    lemma RefreshedBlock(a: Attempt, messages: seq<Message>, lastFailed: bool, y: Try, start: State)
      requires HasSystem(start.history) && a.refresh == None
      requires y.start == start.(history := WithSystem(start.history, a.systemText))
      requires settings.BlockTrue(a, messages, lastFailed, y)
      ensures settings.BlockTrue(a, messages, lastFailed, y.(start := start))
      ensures settings.AlertedIn(a, y.(start := start)) == settings.AlertedIn(a, y)
    {
      assert WithSystem(y.start.history, a.systemText) == y.start.history;
    }

    /** Without an answer nothing changes, and the block succeeds only when no tool is left. */
    lemma UnansweredBlock(a: Attempt, messages: seq<Message>, lastFailed: bool, y: Try)
      requires HasSystem(y.start.history) && a.refresh == None && y.end == y.start && y.base == y.start.history
      requires WithSystem(y.start.history, a.systemText) == y.start.history
      requires var offer := settings.OfferIn(y.start, lastFailed);
               && settings.Asked(a, offer, y.requests) && !settings.Answered(a, y.start.history, y.requests)
               && y.offered == (if y.requests > 0 then Some(offer.functions) else None)
               && (y.tried.Stepped? <==> offer.NoneLeft?)
               && (y.tried.StepRaised? ==> y.tried.error == settings.NoReplyError(a, y.start.history, offer, y.requests))
      requires y.tried.Stepped? ==> y.tried.response == StepResponse(y.base + messages, false, false, false, 0)
      ensures settings.BlockTrue(a, messages, lastFailed, y)
    {
      assert y.start.tools + [] == y.start.tools;
    }

    /** Ask the model, act on its answer, record both. */
    method AskAndRecord(messages: seq<Message>, a: Attempt, lastFunctionFailed: bool) returns (o: StepOutcome, ghost y: Try)
      requires HasSystem(history) && a.refresh == None && WithSystem(history, a.systemText) == history
      modifies this
      ensures y.start == old(Now()) && y.end == Now() && y.tried == o == y.outcome && !y.again
      ensures settings.BlockTrue(a, messages, lastFunctionFailed, y)
      ensures o.StepRaised? ==> history == y.base
      ensures alertedAboutMemoryPressure <==> settings.AlertedIn(a, y)
      ensures HasSystem(history) && modelCalls == old(modelCalls) + y.requests
    {
      ghost var start := Now();
      var inputSequence := history + messages;
      var answer;
      ghost var offered;
      answer, offered := GetAiReply(a, lastFunctionFailed);
      ghost var n := modelCalls - old(modelCalls);
      if !answer.Answer? {
        o := if answer.NoReply? then StepRaised(answer.error) else Stepped(StepResponse(inputSequence, false, false, false, 0));
        y := Try(start, offered, n, history, [], o, false, o, Now());
        UnansweredBlock(a, messages, lastFunctionFailed, y);
        return;
      }
      ghost var base, reply;
      o, base, reply := ActAndRecord(messages, a, answer.reply, answer.totalTokens);
      y := Try(start, offered, n, base, reply, o, false, o, Now());
    }

    /** Act on the model's answer and record it, if nothing raises. */
    method ActAndRecord(messages: seq<Message>, a: Attempt, r: ModelReply, totalTokens: nat)
      returns (o: StepOutcome, ghost base: seq<Message>, ghost reply: seq<Message>)
      requires HasSystem(history)
      modifies this`history, this`toolCallHistory, this`lastFunctionResponse, this`alertedAboutMemoryPressure
      ensures HasSystem(history) && base == settings.HandledHistory(r, a, old(history))
      ensures toolCallHistory == old(toolCallHistory) + if settings.Registers(r, a) then [CalledName(r)] else []
      ensures lastFunctionResponse ==
        if settings.RaisesAtOnce(r, a.toolRun) then old(lastFunctionResponse) else settings.Remembered(r, a.toolRun, old(lastFunctionResponse))
      ensures o.Stepped? <==> settings.Registers(r, a) && (settings.ToolFails(r, a.toolRun) || a.ruleQueries == None) && a.persist == None
      ensures o.StepRaised? ==> history == base && o.error == settings.ResponseError(r, a)
      ensures alertedAboutMemoryPressure <==>
        || old(alertedAboutMemoryPressure)
        || (settings.Registers(r, a) && (settings.ToolFails(r, a.toolRun) || a.ruleQueries == None) && settings.Pressure(totalTokens))
      ensures o.Stepped? ==>
        && reply == settings.ReplyTo(r, a.toolRun) && IsReply(reply) && history == base + messages + reply
        && o.response.messages == messages + reply && o.response.usage == totalTokens
        && (o.response.failed <==> settings.ToolFails(r, a.toolRun))
        && (o.response.heartbeat <==> !o.response.failed && settings.WantsHeartbeat(r, a))
        && (o.response.warning <==> settings.Pressure(totalTokens) && !old(alertedAboutMemoryPressure))
    {
      var handling := HandleAiResponse(r, a);
      base, reply := history, [];
      if handling.HandlerRaised? { return StepRaised(handling.error), base, []; }
      reply := handling.reply;
      o := RecordReply(messages, handling.reply, handling.heartbeat, handling.failed, totalTokens, a.persist);
    }

    /** The end of the try block: warn, log the step, append the new messages. */
    method RecordReply(messages: seq<Message>, reply: seq<Message>, heartbeat: bool, failed: bool, totalTokens: nat, persist: Option<Failure>)
      returns (o: StepOutcome)
      modifies this`history, this`alertedAboutMemoryPressure
      ensures persist.Some? ==> o == StepRaised(persist.value) && history == old(history)
      ensures persist == None ==>
        && history == old(history) + messages + reply
        && o == Stepped(StepResponse(messages + reply, heartbeat, failed, settings.Pressure(totalTokens) && !old(alertedAboutMemoryPressure), totalTokens))
      ensures alertedAboutMemoryPressure <==> settings.Pressure(totalTokens) || old(alertedAboutMemoryPressure)
    {
      var allNewMessages := if |messages| > 0 then messages + reply else reply;
      assert allNewMessages == messages + reply;
      var warning := false;
      if settings.Pressure(totalTokens) {
        if !alertedAboutMemoryPressure {
          warning := true;
          alertedAboutMemoryPressure := true;
        }
      }
      if persist.Some? { return StepRaised(persist.value); }
      Regroup(history, messages, reply);
      history := history + allNewMessages;
      o := Stepped(StepResponse(allNewMessages, heartbeat, failed, warning, totalTokens));
    }

    /** The except block of inner_step: what is raised, or None to try again. */
    method PrepareRetry(a: Attempt, error: Failure, count: nat) returns (stop: Option<Failure>)
      requires HasSystem(history)
      modifies this`history, this`alertedAboutMemoryPressure
      ensures HasSystem(history)
      ensures alertedAboutMemoryPressure <==> old(alertedAboutMemoryPressure) && stop.Some?
      ensures stop == None <==>
        && error.overflow && !settings.messageBufferAutoclear && count <= settings.maxSummarizerRetries
        && a.afterOverflow.Summarized? && |old(history)| > 1
      ensures if stop == None then history == Summarize(old(history), a.afterOverflow.cutoff, a.afterOverflow.text) else history == old(history)
      ensures stop.Some? ==> stop == Some(
        if !error.overflow || settings.messageBufferAutoclear then error
        else if count > settings.maxSummarizerRetries then settings.stillOverflowing
        else settings.SummaryError(a.afterOverflow, old(history)))
    {
      if !error.overflow || settings.messageBufferAutoclear { return Some(error); }
      if count > settings.maxSummarizerRetries { return Some(settings.stillOverflowing); }
      stop := SummarizeMessagesInplace(a.afterOverflow);
    }

    /** One attempt, and what to do if it raises: again, after a summary, or raise. */
    method TryAndPrepare(messages: seq<Message>, a: Attempt, count: nat, lastFunctionFailed: bool)
      returns (o: StepOutcome, again: bool, ghost y: Try)
      requires HasSystem(history)
      modifies this
      ensures HasSystem(history) && settings.TrueTry(a, messages, lastFunctionFailed, count, y)
      ensures y.start == old(Now()) && y.end == Now() && y.outcome == o && y.again == again
      ensures modelCalls == old(modelCalls) + y.requests
      ensures again ==> count <= settings.maxSummarizerRetries
    {
      again := false;
      o, y := TryStep(messages, a, lastFunctionFailed);
      if o.StepRaised? {
        var stop := PrepareRetry(a, o.error, count);
        again := stop == None;
        if stop.Some? { o := StepRaised(stop.value); }
        y := y.(again := again, outcome := o, end := Now());
      }
    }

    /** inner_step: try, and after an overflow summarize and try again, without the record of
        the failed function. */
    method InnerStep(messages: seq<Message>, world: nat -> Attempt, summarizeAttemptCount: nat, lastFunctionFailed: bool)
      returns (o: StepOutcome, ghost tries: seq<Try>)
      requires HasSystem(history)
      modifies this
      ensures HasSystem(history)
      ensures settings.TrueTries(world, messages, lastFunctionFailed, summarizeAttemptCount, tries)
      ensures tries[0].start == old(Now()) && tries[|tries| - 1].end == Now() && tries[|tries| - 1].outcome == o
      ensures modelCalls == old(modelCalls) + Requests(tries)
      decreases if summarizeAttemptCount <= settings.maxSummarizerRetries then settings.maxSummarizerRetries - summarizeAttemptCount + 1 else 0
    {
      var again;
      ghost var first;
      o, again, first := TryAndPrepare(messages, world(summarizeAttemptCount), summarizeAttemptCount, lastFunctionFailed);
      tries := [first];
      if again {
        ghost var rest;
        o, rest := InnerStep(messages, world, summarizeAttemptCount + 1, false);
        tries := [first] + rest;
        assert tries[1..] == rest;
      }
    }

    // ---------------------------------------------------------------------------- step

    /** The three notices the loop sends itself. */
    method NextInput(response: StepResponse) returns (input: Option<seq<Message>>)
      ensures input == settings.Notice(response)
    {
      if response.warning && settings.sendMemoryWarning {
        input := Some([Message(User, "token limit warning", None, false)]);
      } else if response.failed {
        input := Some([Message(User, "function failed", None, false)]);
      } else if response.heartbeat {
        input := Some([Message(User, "heartbeat", None, false)]);
      } else {
        input := None;
      }
    }

    /** One turn of the loop, logged. */
    method LoggedStep(input: seq<Message>, world: nat -> Attempt, lastFailed: bool) returns (o: StepOutcome, ghost e: Entry)
      requires HasSystem(history)
      modifies this
      ensures HasSystem(history) && settings.Truthful(e)
      ensures e.input == input && e.world == world && e.outcome == o && e.lastFailed == lastFailed
      ensures e.before == old(Now()) && e.after == Now()
      ensures modelCalls == old(modelCalls) + Requests(e.tries)
    {
      ghost var tries;
      o, tries := InnerStep(input, world, 0, lastFailed);
      e := Entry(input, lastFailed, world, old(Now()), tries, Now(), o);
    }

    /** One turn: the step, the longer log, and what is sent next (nothing, when the loop stops). */
    method Turn(ghost log: seq<Entry>, ghost input: seq<Message>, ghost start: seq<Message>,
                nextInput: seq<Message>, world: nat -> Attempt, lastFailed: bool)
      returns (o: StepOutcome, next: Option<seq<Message>>, ghost more: seq<Entry>)
      requires HasSystem(history) && settings.Log(log, input, start) && settings.ReadyAfter(log, input, start, nextInput, lastFailed, Now())
      modifies this
      ensures HasSystem(history) && |more| == |log| + 1 && settings.Log(more, input, start)
      ensures more[|log|].outcome == o && more[|log|].after == Now()
      ensures modelCalls - TotalRequests(more) == old(modelCalls) - TotalRequests(log)
      ensures o.Stepped? ==>
        && AllMessages(more) == AllMessages(log) + [o.response.messages]
        && TotalUsage(more) == TotalUsage(log) + o.response.usage
      ensures next == if o.Stepped? then settings.Notice(o.response) else None
      ensures next.Some? ==> settings.ReadyAfter(more, input, start, next.value, o.response.failed, Now())
    {
      ghost var e;
      o, e := LoggedStep(nextInput, world, lastFailed);
      settings.LogGrows(log, e, input, start);
      TotalsSnoc(log, e);
      next, more := None, log + [e];
      if o.Stepped? { next := NextInput(o.response); }
    }

    /** What the agent may do at the end of a run: forget all but the system message. */
    method AutoClear()
      requires HasSystem(history)
      modifies this`history
      ensures HasSystem(history)
      ensures history == if settings.messageBufferAutoclear then [old(history)[0]] else old(history)
    {
      if settings.messageBufferAutoclear { history := [history[0]]; }
    }

    /** step: the chaining loop, watched for at most `horizon` inner steps.  The run finishes,
        an inner step raises, or the horizon comes first. */
    method Step(input: seq<Message>, worlds: nat -> (nat -> Attempt), chaining: bool, maxChainingSteps: Option<int>, horizon: nat)
      returns (run: Run, ghost log: seq<Entry>)
      requires HasSystem(history)
      modifies this
      ensures HasSystem(history) && |log| <= horizon && settings.Log(log, input, old(history))
      ensures run.Finished? ==>
        && log != [] && log[|log| - 1].outcome.Stepped?
        && run.stepCount == |run.stepsMessages| == |log|
        && run.stepsMessages == AllMessages(log) && run.usage == TotalUsage(log)
        && log[|log| - 1].after.history != []
        && history == if settings.messageBufferAutoclear then [log[|log| - 1].after.history[0]] else log[|log| - 1].after.history
      ensures run.Finished? ==>
        || !chaining || (maxChainingSteps.Some? && |log| > maxChainingSteps.value)
        || settings.Notice(log[|log| - 1].outcome.response) == None
      ensures run.RaisedOut? ==> log != [] && log[|log| - 1].outcome == StepRaised(run.error)
      ensures |log| <= StepLimit(chaining, maxChainingSteps, horizon)
      ensures run.Unfinished? ==> |log| == horizon && (horizon > 0 ==> StepLimit(chaining, maxChainingSteps, horizon + 1) == horizon + 1)
      ensures modelCalls == old(modelCalls) + TotalRequests(log)
    {
      ghost var start := history;
      toolCallHistory := [];
      log := [];
      var nextInput, functionFailed := input, false;
      var totalUsage, stepCount := 0, 0;
      var stepsMessages: seq<seq<Message>> := [];
      while stepCount < horizon
        invariant HasSystem(history) && settings.Log(log, input, start)
        invariant stepCount == |log| <= horizon
        invariant stepsMessages == AllMessages(log) && totalUsage == TotalUsage(log)
        invariant modelCalls == old(modelCalls) + TotalRequests(log)
        invariant settings.ReadyAfter(log, input, start, nextInput, functionFailed, Now())
        invariant stepCount > 0 ==> chaining && (maxChainingSteps.Some? ==> stepCount <= maxChainingSteps.value)
      {
        var o, next;
        o, next, log := Turn(log, input, start, nextInput, worlds(stepCount), functionFailed);
        if o.StepRaised? { return RaisedOut(o.error), log; }
        stepsMessages := stepsMessages + [o.response.messages];
        stepCount := stepCount + 1;
        totalUsage := totalUsage + o.response.usage;
        if !chaining || (maxChainingSteps.Some? && stepCount > maxChainingSteps.value) || next == None {
          AutoClear();
          return Finished(totalUsage, stepCount, stepsMessages), log;
        }
        nextInput, functionFailed := next.value, o.response.failed;
      }
      run := Unfinished;
    }
  }
}
