/** What the agent loop does, as records of its attempts and steps that tell the truth about it
    (letta/agent.py:236-275, 300-855, 857-1072, 1107-1172). */
module AgentRecords {
  import opened Wrappers
  import opened AgentModel

  datatype StepResponse = StepResponse(messages: seq<Message>, heartbeat: bool, failed: bool, warning: bool, usage: nat)

  datatype StepOutcome = Stepped(response: StepResponse) | StepRaised(error: Failure)

  /** What an agent carries from attempt to attempt. */
  datatype State = State(history: seq<Message>, tools: seq<Option<string>>, response: Option<string>, alerted: bool)

  /** One attempt of inner_step: where it started, what its requests offered and how many they
      were, the history its messages were appended to or an exception found, the reply's messages,
      how the try block ended; and what came of it: another attempt, or the outcome. */
  datatype Try = Try(
    start: State, offered: Option<seq<string>>, requests: nat, base: seq<Message>, reply: seq<Message>, tried: StepOutcome,
    again: bool, outcome: StepOutcome, end: State)
  {
    /** The model answered, and the answer is on record. */
    predicate Replied() { tried.Stepped? && requests > 0 }
  }

  /** One inner step of a run: what it was given, where it started, its attempts, where it ended. */
  datatype Entry = Entry(
    input: seq<Message>, lastFailed: bool, world: nat -> Attempt,
    before: State, tries: seq<Try>, after: State, outcome: StepOutcome)

  // ------------------------------------------------------------------- model responses

  function CalledName(r: ModelReply): Option<string> {
    if r.ToolCall? then Some(r.name) else None
  }

  datatype Settings = Settings(
    rules: Rules, tools: seq<string>,
    contextWindow: nat, warningThreshold: real, maxSummarizerRetries: nat, requestLimit: nat,
    nothingToSummarize: Failure, stillOverflowing: Failure,
    messageBufferAutoclear: bool, sendMemoryWarning: bool)
  {
    predicate Pressure(totalTokens: nat) { totalTokens as real > warningThreshold * contextWindow as real }

    /** The call comes back as a failure. */
    predicate ToolFails(r: ModelReply, run: ToolRun) {
      r.ToolCall? && (r.name !in tools || !run.Returns?)
    }

    /** The response gets as far as the tool rules. */
    predicate Registers(r: ModelReply, a: Attempt) {
      && !r.FunctionCall?
      && (r.ToolCall? ==> r.id.Some? && (r.name in tools ==> !a.toolRun.Escapes?))
      && (ToolFails(r, a.toolRun) || a.rebuilt.Ok?)
    }

    /** The heartbeat the tool asked for, overruled by the tool rules. */
    function WantsHeartbeat(r: ModelReply, a: Attempt): bool {
      var name := CalledName(r);
      if rules.isContinue(name) || rules.hasChildren(name) then true
      else if rules.isTerminal(name) then false
      else r.ToolCall? && a.toolRun.Returns? && a.toolRun.heartbeat
    }

    /** What is remembered as the last function response. */
    function Remembered(r: ModelReply, run: ToolRun, before: Option<string>): Option<string> {
      if !r.ToolCall? then before
      else if r.name !in tools || run.NotInStore? || run.BadArguments? || run.Escapes? then Some("None")
      else Some(run.response)
    }

    /** The messages a response leads to: text, or a call and the answer of the tool. */
    function ReplyTo(r: ModelReply, run: ToolRun): seq<Message> {
      match r
      case FunctionCall => []
      case Says(text) => [Message(Assistant, text, None, false)]
      case ToolCall(id, name, text) => [Message(Assistant, text, id, false), Message(Tool, AnswerText(name, run), id, false)]
    }

    function AnswerText(name: string, run: ToolRun): string {
      if name !in tools || run.NotInStore? then "No function named " + name
      else if run.BadArguments? then "Error parsing JSON arguments"
      else if run.Escapes? then ""
      else if run.Invalid? then run.message
      else run.response
    }

    // ------------------------------------------------------------------------ requests

    function OfferIn(s: State, lastFailed: bool): Offer {
      OfferTools(rules, tools, s.tools, s.response, lastFailed)
    }

    /** n requests are made: none unless functions are offered, and as many as are answered with
        something to retry, but for the last and up to the limit. */
    ghost predicate Asked(a: Attempt, offer: Offer, n: int) {
      && 0 <= n <= requestLimit
      && (n > 0 <==> offer.Offered? && requestLimit > 0)
      && (forall k :: 1 <= k < n ==> a.answers(k).Retryable?)
      && (0 < n < requestLimit ==> !a.answers(n).Retryable?)
    }

    /** The last of n requests is answered with a reply, and the history can be summarized where
        the reply's tokens overflow. */
    ghost predicate Answered(a: Attempt, history: seq<Message>, n: int) {
      && n > 0 && a.answers(n).Replies?
      && (a.answers(n).totalTokens > contextWindow ==> a.afterReply.Summarized? && |history| > 1)
    }

    // ------------------------------------------------------------------------ attempts

    /** The response of the attempt is handled. */
    ghost predicate Handled(a: Attempt, y: Try) {
      Answered(a, y.start.history, y.requests) && Registers(a.answers(y.requests).reply, a)
    }

    /** ... and can be recorded. */
    ghost predicate Recordable(a: Attempt, y: Try) {
      && Handled(a, y)
      && (ToolFails(a.answers(y.requests).reply, a.toolRun) || a.ruleQueries == None)
      && a.persist == None
    }

    /** The call the attempt registers: the one of the first answer that is not retried. */
    ghost function CalledIn(a: Attempt, y: Try): seq<Option<string>> {
      if Handled(a, y) then [CalledName(a.answers(y.requests).reply)] else []
    }

    /** The summaries made because of the reply's tokens. */
    ghost function ReplySummaries(a: Attempt, y: Try): nat {
      if Answered(a, y.start.history, y.requests) && a.answers(y.requests).totalTokens > contextWindow then 1 else 0
    }

    // ------------------------------------------------ what the try block leaves behind

    /** Handling the response raises before anything is registered or remembered. */
    predicate RaisesAtOnce(r: ModelReply, run: ToolRun) {
      r.FunctionCall? || (r.ToolCall? && (r.id == None || (r.name in tools && run.Escapes?)))
    }

    /** The error that handling or recording a response ends with, if it does. */
    function ResponseError(r: ModelReply, a: Attempt): Failure {
      if r.FunctionCall? || (r.ToolCall? && r.id == None) then Failure(false)
      else if RaisesAtOnce(r, a.toolRun) then a.toolRun.error
      else if !ToolFails(r, a.toolRun) && a.rebuilt.Err? then a.rebuilt.error
      else if !ToolFails(r, a.toolRun) && a.ruleQueries.Some? then a.ruleQueries.value
      else if a.persist.Some? then a.persist.value
      else Failure(false)
    }

    /** The error that no reply comes with. */
    function NoReplyError(a: Attempt, history: seq<Message>, offer: Offer, n: nat): Failure {
      if offer.RulesRaise? then Failure(false)
      else if n == 0 then a.exhausted
      else match a.answers(n)
           case Retryable => a.exhausted
           case Fails(e) => e
           case Replies(_, _) => SummaryError(a.afterReply, history)
    }

    ghost function ErrorIn(a: Attempt, lastFailed: bool, y: Try): Failure {
      if a.refresh.Some? then a.refresh.value
      else if !Answered(a, y.start.history, y.requests) then NoReplyError(a, y.start.history, OfferIn(y.start, lastFailed), y.requests)
      else ResponseError(a.answers(y.requests).reply, a)
    }

    /** The history once a response is handled: rebuilt behind a call that went well, and text. */
    function HandledHistory(r: ModelReply, a: Attempt, history: seq<Message>): seq<Message>
      requires history != []
    {
      if Registers(r, a) && !ToolFails(r, a.toolRun) then WithSystem(history, a.rebuilt.value) else history
    }

    /** The history when the try block appends its messages, or raises. */
    ghost function BaseIn(a: Attempt, y: Try): seq<Message>
      requires y.start.history != []
    {
      if a.refresh.Some? then y.start.history
      else
        var refreshed := WithSystem(y.start.history, a.systemText);
        if !Answered(a, y.start.history, y.requests) then refreshed
        else HandledHistory(a.answers(y.requests).reply, a,
               if a.answers(y.requests).totalTokens > contextWindow
               then Summarize(refreshed, a.afterReply.cutoff, a.afterReply.text) else refreshed)
    }

    ghost function ResponseIn(a: Attempt, y: Try): Option<string> {
      if Answered(a, y.start.history, y.requests) && !RaisesAtOnce(a.answers(y.requests).reply, a.toolRun)
      then Remembered(a.answers(y.requests).reply, a.toolRun, y.start.response) else y.start.response
    }

    /** A summary ends the alert, and a response that is handled to the end may raise it. */
    ghost predicate AlertedIn(a: Attempt, y: Try) {
      if !Answered(a, y.start.history, y.requests) then y.start.alerted
      else
        var Replies(r, totalTokens) := a.answers(y.requests);
        || (y.start.alerted && totalTokens <= contextWindow)
        || (Registers(r, a) && (ToolFails(r, a.toolRun) || a.ruleQueries == None) && Pressure(totalTokens))
    }

    /** The requests, and what is registered and remembered. */
    ghost predicate RequestsTrue(a: Attempt, lastFailed: bool, y: Try) {
      && (if a.refresh.Some? then y.requests == 0 else Asked(a, OfferIn(y.start, lastFailed), y.requests))
      && (y.offered.Some? <==> y.requests > 0)
      && (y.offered.Some? ==> OfferIn(y.start, lastFailed) == Offered(y.offered.value))
      && y.end.tools == y.start.tools + CalledIn(a, y)
      && y.end.response == ResponseIn(a, y)
    }

    /** What is on record of a reply: input and reply once, and everything as the model's answer
        and the tool have it.  A warning is given once a period. */
    ghost predicate ReplyTrue(a: Attempt, input: seq<Message>, y: Try, response: StepResponse)
      requires Recordable(a, y)
    {
      var Replies(r, totalTokens) := a.answers(y.requests);
      && y.reply == ReplyTo(r, a.toolRun) && IsReply(y.reply)
      && y.end.history == y.base + input + y.reply
      && response.messages == input + y.reply
      && response.usage == totalTokens
      && (response.failed <==> ToolFails(r, a.toolRun))
      && (response.heartbeat <==> !response.failed && WantsHeartbeat(r, a))
      && (response.warning <==> Pressure(totalTokens) && !(y.start.alerted && totalTokens <= contextWindow))
    }

    /** The try block. */
    ghost predicate BlockTrue(a: Attempt, input: seq<Message>, lastFailed: bool, y: Try) {
      && HasSystem(y.start.history)
      && RequestsTrue(a, lastFailed, y)
      && y.base == BaseIn(a, y)
      && (y.tried.Stepped? <==> a.refresh == None && (OfferIn(y.start, lastFailed).NoneLeft? || Recordable(a, y)))
      && (y.tried.StepRaised? ==> y.tried.error == ErrorIn(a, lastFailed, y))
      && (y.Replied() ==> Recordable(a, y) && ReplyTrue(a, input, y, y.tried.response))
      && (y.tried.Stepped? && !y.Replied() ==>
            y.end.history == y.base && y.tried.response == StepResponse(y.base + input, false, false, false, 0))
    }

    /** The exception handler: another attempt, after a summary, or an outcome. */
    ghost predicate HandlerTrue(a: Attempt, count: nat, y: Try) {
      match y.tried
      case Stepped(_) => !y.again && y.outcome == y.tried
      case StepRaised(error) =>
        var mayRetry := error.overflow && !messageBufferAutoclear;
        && (y.again <==> mayRetry && count <= maxSummarizerRetries && a.afterOverflow.Summarized? && |y.base| > 1)
        && y.base != [] && y.end.history == (if y.again then Summarize(y.base, a.afterOverflow.cutoff, a.afterOverflow.text) else y.base)
        && (!y.again ==> y.outcome == StepRaised(
              if !mayRetry then error
              else if count > maxSummarizerRetries then stillOverflowing
              else SummaryError(a.afterOverflow, y.base)))
    }

    function SummaryError(s: Summary, history: seq<Message>): Failure {
      if |history| > 1 && s.NotSummarized? then s.error else nothingToSummarize
    }

    ghost predicate TrueTry(a: Attempt, input: seq<Message>, lastFailed: bool, count: nat, y: Try) {
      && BlockTrue(a, input, lastFailed, y)
      && HandlerTrue(a, count, y)
      && HasSystem(y.end.history)
      && (y.end.alerted <==> AlertedIn(a, y) && !y.again)
    }

    /** All attempts of an inner step, the first one counted as given.  Only the first knows that
        the last tool failed. */
    ghost predicate TrueTries(world: nat -> Attempt, input: seq<Message>, lastFailed: bool, count: nat, tries: seq<Try>)
      decreases |tries|
    {
      && tries != []
      && TrueTry(world(count), input, lastFailed, count, tries[0])
      && (tries[0].again <==> |tries| > 1)
      && (tries[0].again ==> tries[1].start == tries[0].end && TrueTries(world, input, false, count + 1, tries[1..]))
    }

    // --------------------------------------------------------------------------- steps

    /** An entry of the log tells the truth about its step. */
    ghost predicate Truthful(e: Entry) {
      && TrueTries(e.world, e.input, e.lastFailed, 0, e.tries)
      && e.before == e.tries[0].start
      && e.after == e.tries[|e.tries| - 1].end && e.outcome == e.tries[|e.tries| - 1].outcome
    }

    /** What the loop sends itself after a step, if it goes on. */
    function Notice(response: StepResponse): Option<seq<Message>> {
      if response.warning && sendMemoryWarning then Some([Message(User, "token limit warning", None, false)])
      else if response.failed then Some([Message(User, "function failed", None, false)])
      else if response.heartbeat then Some([Message(User, "heartbeat", None, false)])
      else None
    }

    /** The record of a run: every entry true, each step following from the one before. */
    ghost predicate Log(log: seq<Entry>, input: seq<Message>, start: seq<Message>) {
      && (forall e <- log :: Truthful(e))
      && (forall i :: 0 <= i < |log| - 1 ==> Follows(log[i], log[i + 1]) && Notice(log[i].outcome.response) == Some(log[i + 1].input))
      && (log != [] ==> IsFirst(log[0], input, start))
    }

    /** The agent's state from which the next entry will follow. */
    ghost predicate ReadyAfter(log: seq<Entry>, input: seq<Message>, start: seq<Message>,
                               nextInput: seq<Message>, failed: bool, now: State) {
      if log == [] then nextInput == input && !failed && now.history == start && now.tools == []
      else
        var e := log[|log| - 1];
        && e.outcome.Stepped? && Notice(e.outcome.response) == Some(nextInput)
        && e.after == now && e.outcome.response.failed == failed
    }

    lemma LogGrows(log: seq<Entry>, e: Entry, input: seq<Message>, start: seq<Message>)
      requires Log(log, input, start) && Truthful(e)
      requires log == [] ==> IsFirst(e, input, start)
      requires log != [] ==> Follows(log[|log| - 1], e) && Notice(log[|log| - 1].outcome.response) == Some(e.input)
      ensures Log(log + [e], input, start)
    {
      var more := log + [e];
      forall i | 0 <= i < |more| - 1 ensures Follows(more[i], more[i + 1]) && Notice(more[i].outcome.response) == Some(more[i + 1].input) {
        if i < |log| - 1 { assert more[i] == log[i] && more[i + 1] == log[i + 1]; }
      }
    }
  }

  /** The next step starts where the last one ended, and knows of its failure. */
  ghost predicate Follows(e: Entry, next: Entry) {
    && e.outcome.Stepped?
    && next.before == e.after
    && next.lastFailed == e.outcome.response.failed
  }

  /** A run's first step: the caller's messages, the history as found, an empty tool history. */
  ghost predicate IsFirst(e: Entry, input: seq<Message>, start: seq<Message>) {
    e.input == input && e.before.history == start && e.before.tools == [] && !e.lastFailed
  }

  // ---------------------------------------------------------------------------- totals

  function Requests(tries: seq<Try>): nat {
    if tries == [] then 0 else tries[0].requests + Requests(tries[1..])
  }

  function AllMessages(log: seq<Entry>): (r: seq<seq<Message>>)
    ensures |r| == |log|
  {
    if log == [] then []
    else AllMessages(log[..|log| - 1]) + [match log[|log| - 1].outcome case Stepped(r) => r.messages case StepRaised(_) => []]
  }

  function TotalUsage(log: seq<Entry>): nat {
    if log == [] then 0
    else TotalUsage(log[..|log| - 1]) + match log[|log| - 1].outcome case Stepped(r) => r.usage case StepRaised(_) => 0
  }

  function TotalRequests(log: seq<Entry>): nat {
    if log == [] then 0 else TotalRequests(log[..|log| - 1]) + Requests(log[|log| - 1].tries)
  }

  lemma TotalsSnoc(log: seq<Entry>, e: Entry)
    ensures TotalRequests(log + [e]) == TotalRequests(log) + Requests(e.tries)
    ensures AllMessages(log + [e]) == AllMessages(log) + [match e.outcome case Stepped(r) => r.messages case StepRaised(_) => []]
    ensures TotalUsage(log + [e]) == TotalUsage(log) + match e.outcome case Stepped(r) => r.usage case StepRaised(_) => 0
  {
    assert (log + [e])[..|log|] == log;
  }

  /** How many inner steps a run may have. */
  function StepLimit(chaining: bool, maxChainingSteps: Option<int>, horizon: nat): nat {
    if horizon == 0 then 0
    else if !chaining || (maxChainingSteps.Some? && maxChainingSteps.value < 0) then 1
    else if maxChainingSteps.Some? && maxChainingSteps.value + 1 < horizon then maxChainingSteps.value + 1
    else horizon
  }
}
