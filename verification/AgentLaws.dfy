/** What holds of whole runs of the agent loop (letta/agent.py:752-1072). */
module AgentLaws {
  import opened Wrappers
  import opened Sequences
  import opened AgentModel
  import opened AgentRecords
  import opened AgentLoop

  lemma {:induction false} TriesFrom(s: Settings, world: nat -> Attempt, input: seq<Message>, lastFailed: bool, tries: seq<Try>, k: nat)
    requires s.TrueTries(world, input, lastFailed, 0, tries) && k < |tries|
    ensures s.TrueTries(world, input, lastFailed && k == 0, k, tries[k..])
    decreases k
  {
    if k == 0 {
      assert tries[0..] == tries;
    } else {
      TriesFrom(s, world, input, lastFailed, tries, k - 1);
      assert tries[k - 1..][1..] == tries[k..];
    }
  }

  /** Every attempt of a step is a true one, and only the first knows of a failure. */
  lemma TryAt(s: Settings, world: nat -> Attempt, input: seq<Message>, lastFailed: bool, tries: seq<Try>, k: nat)
    requires s.TrueTries(world, input, lastFailed, 0, tries) && k < |tries|
    ensures s.TrueTry(world(k), input, lastFailed && k == 0, k, tries[k])
    ensures tries[k].again <==> k + 1 < |tries|
  {
    TriesFrom(s, world, input, lastFailed, tries, k);
    assert tries[k..][0] == tries[k];
  }

  // ------------------------------------------------------------- exactly once, in order

  /** What an attempt put on record: the step's input and the response, if it replied. */
  function Recorded(input: seq<Message>, y: Try): seq<Message> {
    if y.Replied() then input + y.reply else []
  }

  /** What a step put on record, by its last attempt. */
  function Added(e: Entry): seq<Message> {
    if e.tries == [] then [] else Recorded(e.input, e.tries[|e.tries| - 1])
  }

  function AllAdded(log: seq<Entry>): seq<Message> {
    if log == [] then [] else AllAdded(log[..|log| - 1]) + Added(log[|log| - 1])
  }

  /** The summaries an attempt leads to: for its reply's tokens, and before a retry. */
  ghost function Summaries(s: Settings, a: Attempt, y: Try): nat {
    s.ReplySummaries(a, y) + if y.again then 1 else 0
  }

  ghost function StepSummaries(s: Settings, world: nat -> Attempt, count: nat, tries: seq<Try>): nat
    decreases |tries|
  {
    if tries == [] then 0 else Summaries(s, world(count), tries[0]) + StepSummaries(s, world, count + 1, tries[1..])
  }

  ghost function AllSummaries(s: Settings, log: seq<Entry>): nat {
    if log == [] then 0
    else AllSummaries(s, log[..|log| - 1]) + StepSummaries(s, log[|log| - 1].world, 0, log[|log| - 1].tries)
  }

  lemma TrimmedAppend(h: seq<Message>, b: seq<Message>, x: seq<Message>, n: nat)
    requires Trimmed(h, b, n)
    ensures Trimmed(h + x, b + x, n)
  {
    var k: nat, j: nat :| TrimmedAt(h, b, k, j) && j <= n + 1;
    assert (b + x)[j..] == b[j..] + x && (h + x)[k..] == h[k..] + x;
    assert TrimmedAt(h + x, b + x, k, j);
  }

  /** Refreshing, summarizing and rebuilding only trim. */
  lemma BaseTrims(s: Settings, a: Attempt, y: Try)
    requires HasSystem(y.start.history)
    ensures HasSystem(s.BaseIn(a, y)) && Trimmed(y.start.history, s.BaseIn(a, y), s.ReplySummaries(a, y))
  {
    var h := y.start.history;
    TrimmedSame(h);
    if a.refresh == None {
      var refreshed := WithSystem(h, a.systemText);
      WithSystemTrims(h, a.systemText);
      if s.Answered(a, h, y.requests) {
        var Replies(r, totalTokens) := a.answers(y.requests);
        var kept := refreshed;
        if totalTokens > s.contextWindow {
          kept := Summarize(refreshed, a.afterReply.cutoff, a.afterReply.text);
          SummarizeTrims(refreshed, a.afterReply.cutoff, a.afterReply.text);
          TrimmedTwice(h, refreshed, kept, 0, 1);
        }
        HandlingTrims(s, r, a, h, kept, s.ReplySummaries(a, y));
      }
    }
  }

  lemma HandlingTrims(s: Settings, r: ModelReply, a: Attempt, h: seq<Message>, kept: seq<Message>, n: nat)
    requires HasSystem(kept) && Trimmed(h, kept, n)
    ensures HasSystem(s.HandledHistory(r, a, kept)) && Trimmed(h, s.HandledHistory(r, a, kept), n)
  {
    if s.Registers(r, a) && !s.ToolFails(r, a.toolRun) {
      WithSystemTrims(kept, a.rebuilt.value);
      TrimmedTwice(h, kept, WithSystem(kept, a.rebuilt.value), n, 0);
    }
  }

  lemma TryAdds(s: Settings, a: Attempt, input: seq<Message>, lastFailed: bool, count: nat, y: Try)
    requires s.TrueTry(a, input, lastFailed, count, y)
    ensures Trimmed(y.start.history + Recorded(input, y), y.end.history, Summaries(s, a, y))
  {
    BaseTrims(s, a, y);
    if y.Replied() {
      TrimmedAppend(y.start.history, y.base, Recorded(input, y), s.ReplySummaries(a, y));
      Regroup(y.base, input, y.reply);
    } else {
      assert y.start.history + [] == y.start.history;
      if y.again {
        SummarizeTrims(y.base, a.afterOverflow.cutoff, a.afterOverflow.text);
        TrimmedTwice(y.start.history, y.base, y.end.history, s.ReplySummaries(a, y), 1);
      }
    }
  }

  lemma {:induction false} TriesAdd(s: Settings, world: nat -> Attempt, input: seq<Message>, lastFailed: bool, count: nat, tries: seq<Try>)
    requires s.TrueTries(world, input, lastFailed, count, tries)
    ensures Trimmed(tries[0].start.history + Recorded(input, tries[|tries| - 1]), tries[|tries| - 1].end.history,
                    StepSummaries(s, world, count, tries))
    decreases |tries|
  {
    var first, added := tries[0], Recorded(input, tries[|tries| - 1]);
    TryAdds(s, world(count), input, lastFailed, count, first);
    if first.again {
      TriesAdd(s, world, input, false, count + 1, tries[1..]);
      assert first.start.history + [] == first.start.history;
      var n := Summaries(s, world(count), first);
      TrimmedAppend(first.start.history, first.end.history, added, n);
      TrimmedTwice(first.start.history + added, first.end.history + added, tries[|tries| - 1].end.history,
                   n, StepSummaries(s, world, count + 1, tries[1..]));
    } else {
      assert tries[1..] == [];
    }
  }

  lemma StepAdds(s: Settings, e: Entry)
    requires s.Truthful(e)
    ensures Trimmed(e.before.history + Added(e), e.after.history, StepSummaries(s, e.world, 0, e.tries))
  {
    TriesAdd(s, e.world, e.input, e.lastFailed, 0, e.tries);
  }

  /** Over a whole run, however often requests were retried, the history at the end is the
      history at the start with every recorded step's messages appended once and in order; what
      is missing of it is summarized, in no more summaries than were made. */
  lemma {:induction false} RunRecordsOnce(s: Settings, log: seq<Entry>, input: seq<Message>, start: seq<Message>)
    requires s.Log(log, input, start) && log != []
    ensures Trimmed(start + AllAdded(log), log[|log| - 1].after.history, AllSummaries(s, log))
    decreases log
  {
    var n := |log| - 1;
    var e := log[n];
    StepAdds(s, e);
    if n == 0 {
      assert AllAdded(log) == Added(e);
    } else {
      assert s.Log(log[..n], input, start);
      RunRecordsOnce(s, log[..n], input, start);
      assert Follows(log[n - 1], e);
      TrimmedAppend(start + AllAdded(log[..n]), e.before.history, Added(e), AllSummaries(s, log[..n]));
      Regroup(start, AllAdded(log[..n]), Added(e));
      TrimmedTwice(start + AllAdded(log), e.before.history + Added(e), e.after.history,
                   AllSummaries(s, log[..n]), StepSummaries(s, e.world, 0, e.tries));
    }
  }

  /** Without a summary nothing is missing: behind the system message stands the whole history,
      followed by all that was recorded. */
  lemma NothingLostWithoutSummary(s: Settings, log: seq<Entry>, input: seq<Message>, start: seq<Message>)
    requires s.Log(log, input, start) && log != [] && AllSummaries(s, log) == 0 && start != []
    ensures log[|log| - 1].after.history != []
    ensures log[|log| - 1].after.history[0].role == System
    ensures log[|log| - 1].after.history[1..] == start[1..] + AllAdded(log)
  {
    RunRecordsOnce(s, log, input, start);
    TrimmedWithoutSummary(start + AllAdded(log), log[|log| - 1].after.history);
    assert (start + AllAdded(log))[1..] == start[1..] + AllAdded(log);
  }

  // --------------------------------------------------------------------- registered calls

  /** What the handled attempts of a step called, in order; None where the model only spoke. */
  ghost function StepCalled(s: Settings, world: nat -> Attempt, count: nat, tries: seq<Try>): seq<Option<string>>
    decreases |tries|
  {
    if tries == [] then [] else s.CalledIn(world(count), tries[0]) + StepCalled(s, world, count + 1, tries[1..])
  }

  ghost function Called(s: Settings, log: seq<Entry>): seq<Option<string>> {
    if log == [] then [] else Called(s, log[..|log| - 1]) + StepCalled(s, log[|log| - 1].world, 0, log[|log| - 1].tries)
  }

  lemma {:induction false} StepRegisters(s: Settings, world: nat -> Attempt, input: seq<Message>, lastFailed: bool, count: nat, tries: seq<Try>)
    requires s.TrueTries(world, input, lastFailed, count, tries)
    ensures tries[|tries| - 1].end.tools == tries[0].start.tools + StepCalled(s, world, count, tries)
    decreases |tries|
  {
    var called := s.CalledIn(world(count), tries[0]);
    if tries[0].again {
      StepRegisters(s, world, input, false, count + 1, tries[1..]);
      Regroup(tries[0].start.tools, called, StepCalled(s, world, count + 1, tries[1..]));
    } else {
      assert tries[1..] == [] && called + [] == called;
    }
  }

  lemma StepCalls(s: Settings, e: Entry)
    requires s.Truthful(e)
    ensures e.after.tools == e.before.tools + StepCalled(s, e.world, 0, e.tries)
  {
    StepRegisters(s, e.world, e.input, e.lastFailed, 0, e.tries);
  }

  /** Over a whole run the tool history is what the model called, in order: the call of every
      answer that was handled, also of those that were never recorded. */
  lemma {:induction false} HistoryIsCalled(s: Settings, log: seq<Entry>, input: seq<Message>, start: seq<Message>)
    requires s.Log(log, input, start) && log != []
    ensures log[|log| - 1].after.tools == Called(s, log)
    decreases log
  {
    var n := |log| - 1;
    var e := log[n];
    StepCalls(s, e);
    if n == 0 {
      assert Called(s, log[..0]) == [];
    } else {
      assert s.Log(log[..n], input, start);
      HistoryIsCalled(s, log[..n], input, start);
      assert Follows(log[n - 1], e);
    }
  }

  /** The attempts whose response was handled. */
  ghost function StepResponses(s: Settings, world: nat -> Attempt, count: nat, tries: seq<Try>): nat
    decreases |tries|
  {
    if tries == [] then 0
    else (if s.Handled(world(count), tries[0]) then 1 else 0) + StepResponses(s, world, count + 1, tries[1..])
  }

  ghost function Responses(s: Settings, log: seq<Entry>): nat {
    if log == [] then 0 else Responses(s, log[..|log| - 1]) + StepResponses(s, log[|log| - 1].world, 0, log[|log| - 1].tries)
  }

  lemma {:induction false} CalledPerResponse(s: Settings, world: nat -> Attempt, count: nat, tries: seq<Try>)
    ensures |StepCalled(s, world, count, tries)| == StepResponses(s, world, count, tries)
    decreases |tries|
  {
    if tries != [] { CalledPerResponse(s, world, count + 1, tries[1..]); }
  }

  lemma {:induction false} AllCalledPerResponse(s: Settings, log: seq<Entry>)
    ensures |Called(s, log)| == Responses(s, log)
    decreases log
  {
    if log != [] {
      AllCalledPerResponse(s, log[..|log| - 1]);
      CalledPerResponse(s, log[|log| - 1].world, 0, log[|log| - 1].tries);
    }
  }

  /** The tool history has one entry for every response that was handled. */
  lemma OneEntryPerResponse(s: Settings, log: seq<Entry>, input: seq<Message>, start: seq<Message>)
    requires s.Log(log, input, start) && log != []
    ensures |log[|log| - 1].after.tools| == Responses(s, log)
  {
    HistoryIsCalled(s, log, input, start);
    AllCalledPerResponse(s, log);
  }

  /** A handled response gets lost: logging the step raises, or asking the tool rules about a
      call that went well. */
  predicate GetsLost(s: Settings, a: Attempt, r: ModelReply) {
    a.persist.Some? || (!s.ToolFails(r, a.toolRun) && a.ruleQueries.Some?)
  }

  /** What the answers of a step's attempts ought to put on record: for each that is handled and
      does not get lost, the input and the messages the answer leads to. */
  ghost function StepAnswered(s: Settings, input: seq<Message>, world: nat -> Attempt, count: nat, tries: seq<Try>): seq<Message>
    decreases |tries|
  {
    if tries == [] then []
    else
      var a, y := world(count), tries[0];
      (if s.Handled(a, y) && !GetsLost(s, a, a.answers(y.requests).reply)
       then input + s.ReplyTo(a.answers(y.requests).reply, a.toolRun) else [])
      + StepAnswered(s, input, world, count + 1, tries[1..])
  }

  ghost function AllAnswered(s: Settings, log: seq<Entry>): seq<Message> {
    if log == [] then []
    else
      var e := log[|log| - 1];
      AllAnswered(s, log[..|log| - 1]) + StepAnswered(s, e.input, e.world, 0, e.tries)
  }

  lemma {:induction false} StepRecordsAnswers(s: Settings, world: nat -> Attempt, input: seq<Message>, lastFailed: bool, count: nat, tries: seq<Try>)
    requires s.TrueTries(world, input, lastFailed, count, tries)
    ensures Recorded(input, tries[|tries| - 1]) == StepAnswered(s, input, world, count, tries)
    decreases |tries|
  {
    var here := Recorded(input, tries[0]);
    if tries[0].again {
      StepRecordsAnswers(s, world, input, false, count + 1, tries[1..]);
      var rest := StepAnswered(s, input, world, count + 1, tries[1..]);
      assert [] + rest == rest;
    } else {
      assert tries[1..] == [] && here + [] == here;
    }
  }

  lemma StepAddsAnswers(s: Settings, e: Entry)
    requires s.Truthful(e)
    ensures Added(e) == StepAnswered(s, e.input, e.world, 0, e.tries)
  {
    StepRecordsAnswers(s, e.world, e.input, e.lastFailed, 0, e.tries);
  }

  /** Over a whole run, what was recorded is exactly what the handled answers lead to, each with
      its step's input, but for those that got lost. */
  lemma {:induction false} RunRecordsAnswers(s: Settings, log: seq<Entry>)
    requires forall e <- log :: s.Truthful(e)
    ensures AllAdded(log) == AllAnswered(s, log)
    decreases log
  {
    if log != [] {
      RunRecordsAnswers(s, log[..|log| - 1]);
      StepAddsAnswers(s, log[|log| - 1]);
    }
  }

  // ---------------------------------------------------------------------- bounded work

  lemma {:induction false} AttemptsBounded(s: Settings, world: nat -> Attempt, input: seq<Message>, lastFailed: bool, count: nat, tries: seq<Try>)
    requires s.TrueTries(world, input, lastFailed, count, tries)
    ensures |tries| <= if count <= s.maxSummarizerRetries then s.maxSummarizerRetries - count + 2 else 1
    decreases |tries|
  {
    if tries[0].again { AttemptsBounded(s, world, input, false, count + 1, tries[1..]); }
  }

  lemma {:induction false} RequestsBounded(s: Settings, world: nat -> Attempt, input: seq<Message>, lastFailed: bool, count: nat, tries: seq<Try>)
    requires s.TrueTries(world, input, lastFailed, count, tries)
    ensures Requests(tries) <= |tries| * s.requestLimit
    decreases |tries|
  {
    var limit := s.requestLimit;
    assert |tries| * limit == (|tries| - 1) * limit + limit;
    if tries[0].again {
      RequestsBounded(s, world, input, false, count + 1, tries[1..]);
    } else {
      assert tries[1..] == [];
    }
  }

  lemma TimesMonotone(a: nat, b: nat, c: nat)
    requires a <= b
    ensures a * c <= b * c
  {
  }

  function StepBudget(s: Settings): nat { (s.maxSummarizerRetries + 2) * s.requestLimit }

  lemma StepRequestsBounded(s: Settings, e: Entry)
    requires s.Truthful(e)
    ensures Requests(e.tries) <= StepBudget(s)
  {
    AttemptsBounded(s, e.world, e.input, e.lastFailed, 0, e.tries);
    RequestsBounded(s, e.world, e.input, e.lastFailed, 0, e.tries);
    TimesMonotone(|e.tries|, s.maxSummarizerRetries + 2, s.requestLimit);
  }

  lemma OneMore(n: nat, each: nat)
    ensures n * each + each == (n + 1) * each
  {
  }

  lemma {:induction false} CallsBounded(s: Settings, log: seq<Entry>)
    requires forall e <- log :: s.Truthful(e)
    ensures TotalRequests(log) <= |log| * StepBudget(s)
    decreases log
  {
    if log != [] {
      var n := |log| - 1;
      CallsBounded(s, log[..n]);
      StepRequestsBounded(s, log[n]);
      OneMore(n, StepBudget(s));
    }
  }

  /** With max_chaining_steps = m the run makes at most m + 1 steps, and so at most
      (m + 1) * (retries + 2) * (requests per attempt) requests. */
  lemma WorkBounded(s: Settings, log: seq<Entry>, m: nat, horizon: nat)
    requires (forall e <- log :: s.Truthful(e)) && |log| <= StepLimit(true, Some(m), horizon)
    ensures |log| <= m + 1
    ensures TotalRequests(log) <= (m + 1) * StepBudget(s)
  {
    CallsBounded(s, log);
    ProductBound(TotalRequests(log), |log|, m + 1, StepBudget(s));
  }

  lemma ProductBound(total: nat, n: nat, limit: nat, each: nat)
    requires total <= n * each && n <= limit
    ensures total <= limit * each
  {
    TimesMonotone(n, limit, each);
  }

  // ------------------------------------------------------- a failed tool is not offered

  /** A failed step leaves the failed call as the last one registered. */
  lemma FailedStepRegistered(s: Settings, e: Entry)
    requires s.Truthful(e) && e.outcome.Stepped? && e.outcome.response.failed
    ensures e.after.tools != [] && e.after.tools[|e.after.tools| - 1].Some?
  {
    TryAt(s, e.world, e.input, e.lastFailed, e.tries, |e.tries| - 1);
  }

  /** After a failed step no request of the next step's first attempt offers the tool called
      last; and if the rules allow nothing else, the next step makes no request and ends the
      chain. */
  lemma FailedToolNotOfferedNext(s: Settings, e: Entry, next: Entry)
    requires s.Truthful(e) && s.Truthful(next) && Follows(e, next)
    requires e.outcome.response.failed
    ensures e.after.tools != [] && e.after.tools[|e.after.tools| - 1].Some?
    ensures var name, first := e.after.tools[|e.after.tools| - 1].value, next.tries[0];
            first.requests > 0 ==> first.offered.Some? && name !in first.offered.value
    ensures var name := e.after.tools[|e.after.tools| - 1].value;
            var allowed := AllowedNames(s.rules, s.tools, e.after.tools, e.after.response);
            allowed.Some? && (forall n <- allowed.value :: n == name) && next.world(0).refresh == None ==>
              next.outcome.Stepped? && Requests(next.tries) == 0 && s.Notice(next.outcome.response) == None
  {
    FailedStepRegistered(s, e);
    FailedToolNotOffered(s.rules, s.tools, e.after.tools, e.after.response, e.after.tools[|e.after.tools| - 1].value);
  }

  predicate AllowedAndThere(s: Settings, now: State, name: string) {
    var names := AllowedNames(s.rules, s.tools, now.tools, now.response);
    names.Some? && name in names.value && name in s.tools
  }

  predicate Offers(y: Try, name: string) { y.offered.Some? && name in y.offered.value }

  /** A retry that makes a request offers the failed tool like any other. */
  lemma RetryOffersExactly(s: Settings, e: Entry, name: string, k: nat)
    requires s.Truthful(e) && 1 <= k < |e.tries|
    ensures Offers(e.tries[k], name) <==> e.tries[k].requests > 0 && AllowedAndThere(s, e.tries[k].start, name)
  {
    TryAt(s, e.world, e.input, e.lastFailed, e.tries, k);
    var now := e.tries[k].start;
    OfferedWithoutFailure(s.rules, s.tools, now.tools, now.response, name);
  }

  /** The failed tool is kept away from a whole step exactly when no retry with a request finds
      it allowed. */
  lemma KeptAwayExactly(s: Settings, e: Entry, name: string)
    requires s.Truthful(e) && e.lastFailed
    requires e.before.tools != [] && e.before.tools[|e.before.tools| - 1] == Some(name)
    ensures (exists k :: 0 <= k < |e.tries| && Offers(e.tries[k], name))
       <==> (exists k :: 1 <= k < |e.tries| && e.tries[k].requests > 0 && AllowedAndThere(s, e.tries[k].start, name))
  {
    FailedToolNotOffered(s.rules, s.tools, e.before.tools, e.before.response, name);
    assert !Offers(e.tries[0], name);
    forall k | 1 <= k < |e.tries|
      ensures Offers(e.tries[k], name) <==> e.tries[k].requests > 0 && AllowedAndThere(s, e.tries[k].start, name)
    {
      RetryOffersExactly(s, e, name, k);
    }
  }

  const OneTool := Settings(
    Rules((history, response) => Some(["f"]), name => false, name => false, name => false), ["f"],
    8000, 0.75, 3, 3, Failure(true), Failure(true), false, true)

  const TwoMessages := [Message(System, "", None, false), Message(User, "hello", None, false)]

  /** The context overflows once, while the prompt is refreshed. */
  function OverflowOnce(attempt: nat): Attempt {
    Attempt(if attempt == 0 then Some(Failure(true)) else None, "", n => Replies(Says("hi"), 1), Failure(false),
            Summarized(2, ""), NotInStore, Ok(""), None, None, Summarized(2, ""))
  }

  /** A step that knows the one tool failed, overflows, and offers it again. */
  method RetryOffersFailedTool() returns (o: StepOutcome, ghost tries: seq<Try>)
    ensures OneTool.TrueTries(OverflowOnce, [], true, 0, tries)
    ensures tries[0].start == State(TwoMessages, [Some("f")], None, false)
    ensures o.Stepped? && |tries| == 2 && tries[1].offered == Some(["f"])
  {
    var agent := new Agent(OneTool, TwoMessages, [Some("f")]);
    o, tries := agent.InnerStep([], OverflowOnce, 0, true);
    TryAt(OneTool, OverflowOnce, [], true, tries, 0);
    TryAt(OneTool, OverflowOnce, [], true, tries, 1);
    assert Among([], ["f"]) == [];
    assert Among(["f"], ["f"]) == ["f"];
  }
}
