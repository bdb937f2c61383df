/** One attempt and one step of the agent, case by case (letta/agent.py:300-442, 444-750, 800-1072). */
module AgentCases {
  import opened Wrappers
  import opened AgentModel
  import opened AgentRecords
  import opened AgentLaws

  // -------------------------------------------------------------- what is put on record

  /** A call on record: the assistant's message with the call, and the tool's with the same id,
      whose text, like what is remembered, depends on how the tool went. */
  lemma CallOnRecord(s: Settings, a: Attempt, input: seq<Message>, lastFailed: bool, count: nat, y: Try,
                     id: Option<string>, name: string, text: string)
    requires s.TrueTry(a, input, lastFailed, count, y) && y.Replied()
    requires a.answers(y.requests).reply == ToolCall(id, name, text)
    ensures id.Some? && |y.reply| == 2 && y.end.history == y.base + input + y.reply
    ensures y.reply[0] == Message(Assistant, text, id, false)
    ensures y.reply[1].role == Tool && y.reply[1].callId == id && !y.reply[1].summary
    ensures var answer, remembered, failed := y.reply[1].text, y.end.response, y.tried.response.failed;
            if name !in s.tools || a.toolRun == NotInStore then
              answer == "No function named " + name && remembered == Some("None") && failed
            else match a.toolRun
            case NotInStore => true
            case BadArguments => answer == "Error parsing JSON arguments" && remembered == Some("None") && failed
            case Escapes(_) => false
            case ErrorStatus(r) => answer == r && remembered == Some(r) && failed
            case Invalid(message, r) => answer == message && remembered == Some(r) && failed
            case ErrorText(r) => answer == r && remembered == Some(r) && failed
            case Returns(r, _) => answer == r && remembered == Some(r) && !failed
  {
  }

  /** Text on record. */
  lemma TextOnRecord(s: Settings, a: Attempt, input: seq<Message>, lastFailed: bool, count: nat, y: Try, text: string)
    requires s.TrueTry(a, input, lastFailed, count, y) && y.Replied() && a.answers(y.requests).reply == Says(text)
    ensures y.end.history == y.base + input + [Message(Assistant, text, None, false)]
    ensures y.end.response == y.start.response && !y.tried.response.failed
  {
  }

  /** A failure asks for no heartbeat.  Otherwise a continue rule or children ask for one, a terminal
      tool for none, and else the tool's own wish counts. */
  lemma HeartbeatByRule(s: Settings, a: Attempt, input: seq<Message>, lastFailed: bool, count: nat, y: Try)
    requires s.TrueTry(a, input, lastFailed, count, y) && y.Replied()
    ensures var r, response := a.answers(y.requests).reply, y.tried.response;
            var name := if r.ToolCall? then Some(r.name) else None;
            if response.failed then !response.heartbeat
            else if s.rules.isContinue(name) then response.heartbeat
            else if s.rules.hasChildren(name) then response.heartbeat
            else if s.rules.isTerminal(name) then !response.heartbeat
            else match r
                 case Says(_) => !response.heartbeat
                 case FunctionCall => false
                 case ToolCall(_, _, _) => a.toolRun.Returns? && response.heartbeat == a.toolRun.heartbeat
  {
  }

  /** Usage is the reply's, and a warning is due when it is above the threshold and none was given
      since the last summary. */
  lemma WarningByThreshold(s: Settings, a: Attempt, input: seq<Message>, lastFailed: bool, count: nat, y: Try)
    requires s.TrueTry(a, input, lastFailed, count, y) && y.Replied()
    ensures var tokens, response := a.answers(y.requests).totalTokens, y.tried.response;
            && response.usage == tokens
            && response.warning == (tokens as real > s.warningThreshold * s.contextWindow as real
                                    && (!y.start.alerted || tokens > s.contextWindow))
            && y.end.alerted == (tokens as real > s.warningThreshold * s.contextWindow as real
                                 || (y.start.alerted && tokens <= s.contextWindow))
  {
  }

  /** The history in front of what is recorded: the refreshed prompt, a summary where the reply's
      tokens overflow, and the prompt rebuilt unless the call failed. */
  lemma HistoryOnRecord(s: Settings, a: Attempt, input: seq<Message>, lastFailed: bool, count: nat, y: Try)
    requires s.TrueTry(a, input, lastFailed, count, y) && y.Replied()
    ensures y.start.history != [] && y.base != []
    ensures y.base[0] == Message(System, y.base[0].text, None, false)
    ensures var failed := y.tried.response.failed;
            (failed ==> y.base[0].text == a.systemText) && (!failed ==> a.rebuilt == Ok(y.base[0].text))
    ensures if a.answers(y.requests).totalTokens <= s.contextWindow then y.base[1..] == y.start.history[1..]
            else a.afterReply.Summarized? && |y.start.history| > 1
                 && y.base[1..] == [Message(User, a.afterReply.text, None, true)] + y.start.history[Cutoff(y.start.history, a.afterReply.cutoff)..]
  {
    var h := WithSystem(y.start.history, a.systemText);
    assert h[1..] == y.start.history[1..];
    if a.answers(y.requests).totalTokens > s.contextWindow {
      SummaryTail(y.start.history, h, a.afterReply.cutoff, a.afterReply.text);
    }
  }

  lemma SummaryTail(start: seq<Message>, h: seq<Message>, raw: nat, text: string)
    requires start != [] && |h| == |start| && h[1..] == start[1..]
    ensures Summarize(h, raw, text)[0] == h[0]
    ensures Summarize(h, raw, text)[1..] == [Message(User, text, None, true)] + start[Cutoff(start, raw)..]
  {
    var k := Cutoff(h, raw);
    assert h[k..] == h[1..][k - 1..] == start[1..][k - 1..] == start[k..];
    assert ([h[0]] + h[k..])[1..] == h[k..];
  }

  // -------------------------------------------------------------------------- requests

  /** What a request offers: the agent's tools that the rules allow, all where they allow nothing in
      particular, but not the one registered last behind a failure. */
  lemma OfferedByRule(s: Settings, a: Attempt, input: seq<Message>, lastFailed: bool, count: nat, y: Try, name: string)
    requires s.TrueTry(a, input, lastFailed, count, y) && y.requests > 0
    ensures y.offered.Some? && s.rules.allowed(y.start.tools, y.start.response).Some?
    ensures var allowed := s.rules.allowed(y.start.tools, y.start.response).value;
            name in y.offered.value <==>
              && name in s.tools && (allowed == [] || name in allowed)
              && !(lastFailed && y.start.tools != [] && y.start.tools[|y.start.tools| - 1] == Some(name))
  {
  }

  /** How many requests: none where refreshing raises, the rules raise, no tool is left or none are
      to be made; otherwise up to the first answer that is not retried, and the limit at most. */
  lemma RequestsByAnswers(s: Settings, a: Attempt, input: seq<Message>, lastFailed: bool, count: nat, y: Try)
    requires s.TrueTry(a, input, lastFailed, count, y)
    ensures a.refresh.Some? || s.rules.allowed(y.start.tools, y.start.response) == None || s.requestLimit == 0 ==> y.requests == 0
    ensures var allowed := s.rules.allowed(y.start.tools, y.start.response);
            a.refresh == None && allowed.Some? && s.requestLimit > 0 && y.requests == 0 ==>
              lastFailed && y.start.tools != [] && y.tried.Stepped?
              && forall name <- if allowed.value == [] then s.tools else allowed.value :: Some(name) == y.start.tools[|y.start.tools| - 1]
    ensures y.requests <= s.requestLimit && forall k :: 1 <= k < y.requests ==> a.answers(k).Retryable?
    ensures 0 < y.requests < s.requestLimit ==> !a.answers(y.requests).Retryable?
  {
    if s.requestLimit > 0 && y.start.tools != [] && a.refresh == None && y.requests == 0 {
      var names := AllowedNames(s.rules, s.tools, y.start.tools, y.start.response);
      if names.Some? && lastFailed {
        var last := y.start.tools[|y.start.tools| - 1];
        assert forall n <- names.value :: Some(n) == last || n in Without(names.value, last);
      }
    }
  }

  // ------------------------------------------------------------------------ exceptions

  /** What an attempt raises before it has a reply. */
  lemma RaisedWithoutReply(s: Settings, a: Attempt, input: seq<Message>, lastFailed: bool, count: nat, y: Try)
    requires s.TrueTry(a, input, lastFailed, count, y)
    ensures a.refresh.Some? ==> y.tried == StepRaised(a.refresh.value)
    ensures a.refresh == None && s.rules.allowed(y.start.tools, y.start.response) == None ==> y.tried == StepRaised(Failure(false))
    ensures y.requests > 0 && a.answers(y.requests).Retryable? ==> y.requests == s.requestLimit && y.tried == StepRaised(a.exhausted)
    ensures y.requests > 0 && a.answers(y.requests).Fails? ==> y.tried == StepRaised(a.answers(y.requests).error)
    ensures y.requests > 0 && a.answers(y.requests).Replies? && a.answers(y.requests).totalTokens > s.contextWindow ==>
      && (|y.start.history| == 1 ==> y.tried == StepRaised(s.nothingToSummarize))
      && (|y.start.history| > 1 && a.afterReply.NotSummarized? ==> y.tried == StepRaised(a.afterReply.error))
  {
  }

  /** What an attempt raises with a reply that fits, or could be made to. */
  lemma RaisedWithReply(s: Settings, a: Attempt, input: seq<Message>, lastFailed: bool, count: nat, y: Try)
    requires s.TrueTry(a, input, lastFailed, count, y) && y.requests > 0 && a.answers(y.requests).Replies?
    requires a.answers(y.requests).totalTokens > s.contextWindow ==> a.afterReply.Summarized? && |y.start.history| > 1
    ensures match a.answers(y.requests).reply
            case FunctionCall => y.tried == StepRaised(Failure(false))
            case Says(_) =>
              if a.rebuilt.Err? then y.tried == StepRaised(a.rebuilt.error)
              else if a.ruleQueries.Some? then y.tried == StepRaised(a.ruleQueries.value)
              else if a.persist.Some? then y.tried == StepRaised(a.persist.value)
              else y.tried.Stepped?
            case ToolCall(id, name, _) =>
              if id == None then y.tried == StepRaised(Failure(false))
              else if name in s.tools && a.toolRun.Escapes? then y.tried == StepRaised(a.toolRun.error)
              else if name in s.tools && a.toolRun.Returns? && a.rebuilt.Err? then y.tried == StepRaised(a.rebuilt.error)
              else if name in s.tools && a.toolRun.Returns? && a.ruleQueries.Some? then y.tried == StepRaised(a.ruleQueries.value)
              else if a.persist.Some? then y.tried == StepRaised(a.persist.value)
              else y.tried.Stepped?
  {
  }

  /** The call is registered as soon as the tool has failed, or the prompt is rebuilt; before that,
      nothing is. */
  lemma RegisteredByCase(s: Settings, a: Attempt, input: seq<Message>, lastFailed: bool, count: nat, y: Try)
    requires s.TrueTry(a, input, lastFailed, count, y) && y.requests > 0
    ensures !a.answers(y.requests).Replies? ==> y.end.tools == y.start.tools
    ensures a.answers(y.requests).Replies? && a.answers(y.requests).totalTokens <= s.contextWindow ==>
            match a.answers(y.requests).reply
            case FunctionCall => y.end.tools == y.start.tools
            case Says(_) => y.end.tools == y.start.tools + if a.rebuilt.Ok? then [None] else []
            case ToolCall(id, name, _) =>
              if id == None || (name in s.tools && a.toolRun.Escapes?) then y.end.tools == y.start.tools
              else if name in s.tools && a.toolRun.Returns? && a.rebuilt.Err? then y.end.tools == y.start.tools
              else y.end.tools == y.start.tools + [Some(name)]
  {
    assert y.start.tools + [] == y.start.tools;
  }

  /** An attempt is followed by another one exactly if it raised an overflow, the buffer is not to be
      cleared anyway, the limit is not reached, and what is left can be summarized. */
  lemma RetriedExactly(s: Settings, e: Entry, k: nat)
    requires s.Truthful(e) && k < |e.tries|
    ensures k + 1 < |e.tries| <==>
      && e.tries[k].tried.StepRaised? && e.tries[k].tried.error == Failure(true) && !s.messageBufferAutoclear
      && k <= s.maxSummarizerRetries && e.world(k).afterOverflow.Summarized? && |e.tries[k].base| > 1
  {
    TryAt(s, e.world, e.input, e.lastFailed, e.tries, k);
  }

  /** A request that fails because the context overflows is followed by a summary and another
      attempt; one that fails otherwise ends the step with its error. */
  lemma OverflowIsRetried(s: Settings, e: Entry, k: nat)
    requires s.Truthful(e) && k < |e.tries| && e.world(k).refresh == None
    requires e.tries[k].requests > 0 && e.world(k).answers(e.tries[k].requests).Fails?
    ensures var error, start := e.world(k).answers(e.tries[k].requests).error, e.tries[k].start.history;
            && (error.overflow && !s.messageBufferAutoclear && k <= s.maxSummarizerRetries
                && e.world(k).afterOverflow.Summarized? && |start| > 1 ==>
                  && k + 1 < |e.tries| && e.tries[k + 1].start.history != []
                  && e.tries[k + 1].start.history[0] == Message(System, e.world(k).systemText, None, false)
                  && e.tries[k + 1].start.history[1..] ==
                     [Message(User, e.world(k).afterOverflow.text, None, true)] + start[Cutoff(start, e.world(k).afterOverflow.cutoff)..]
                  && !e.tries[k + 1].start.alerted)
            && (!error.overflow ==> k + 1 == |e.tries| && e.outcome == StepRaised(error))
  {
    var y, a := e.tries[k], e.world(k);
    TryAt(s, e.world, e.input, e.lastFailed, e.tries, k);
    RaisedWithoutReply(s, a, e.input, e.lastFailed && k == 0, k, y);
    RetriedExactly(s, e, k);
    assert y.base[1..] == y.start.history[1..];
    if k + 1 < |e.tries| {
      NextTry(s, e, k);
      SummaryTail(y.start.history, y.base, a.afterOverflow.cutoff, a.afterOverflow.text);
    }
  }

  lemma NextTry(s: Settings, e: Entry, k: nat)
    requires s.Truthful(e) && k + 1 < |e.tries|
    ensures e.tries[k + 1].start == e.tries[k].end
  {
    TriesFrom(s, e.world, e.input, e.lastFailed, e.tries, k);
    assert e.tries[k..][0] == e.tries[k] && e.tries[k..][1] == e.tries[k + 1];
  }

  /** What a step raises in the end: the last attempt's own error, unless that is an overflow and the
      limit is reached, or the history cannot be summarized. */
  lemma RaisedOutOfStep(s: Settings, e: Entry)
    requires s.Truthful(e) && e.outcome.StepRaised?
    ensures var n := |e.tries| - 1; var y := e.tries[n];
            && y.tried.StepRaised?
            && (if !y.tried.error.overflow || s.messageBufferAutoclear then e.outcome == y.tried
                else if n > s.maxSummarizerRetries then e.outcome == StepRaised(s.stillOverflowing)
                else if |y.base| > 1 then e.world(n).afterOverflow.NotSummarized? && e.outcome == StepRaised(e.world(n).afterOverflow.error)
                else e.outcome == StepRaised(s.nothingToSummarize))
  {
    TryAt(s, e.world, e.input, e.lastFailed, e.tries, |e.tries| - 1);
  }

  // -------------------------------------------------------------------------- chaining

  /** What the loop sends itself after a step: a memory warning outranks a failure, and a failure a
      heartbeat. */
  lemma SentByCase(s: Settings, log: seq<Entry>, input: seq<Message>, start: seq<Message>, i: nat)
    requires s.Log(log, input, start) && i + 1 < |log|
    ensures log[i].outcome.Stepped?
    ensures var response := log[i].outcome.response;
            || (response.warning && s.sendMemoryWarning && log[i + 1].input == [Message(User, "token limit warning", None, false)])
            || (!(response.warning && s.sendMemoryWarning) && response.failed
                && log[i + 1].input == [Message(User, "function failed", None, false)])
            || (!(response.warning && s.sendMemoryWarning) && !response.failed && response.heartbeat
                && log[i + 1].input == [Message(User, "heartbeat", None, false)])
    ensures log[i + 1].lastFailed == log[i].outcome.response.failed
  {
    assert Follows(log[i], log[i + 1]);
  }

  /** The loop has nothing to send exactly after a step without warning, failure and heartbeat. */
  lemma NothingToSend(s: Settings, response: StepResponse)
    ensures s.Notice(response) == None <==>
      !(response.warning && s.sendMemoryWarning) && !response.failed && !response.heartbeat
  {
  }
}
