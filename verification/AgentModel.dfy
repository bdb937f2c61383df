/** Messages, replies and the outside world of the agent loop (letta/agent.py:96-1187). */
module AgentModel {
  import opened Wrappers

  datatype Role = System | User | Assistant | Tool

  /** callId ties an assistant's tool call to the tool message that answers it; summary marks
      a packed summary. */
  datatype Message = Message(role: Role, text: string, callId: Option<string>, summary: bool)

  // ----------------------------------------------------------- what the world answers

  /** An exception, and whether is_context_overflow_error accepts it. */
  datatype Failure = Failure(overflow: bool)

  /** What the model wants: text, a deprecated function_call, or tool calls (the first counts). */
  datatype ModelReply = Says(text: string) | FunctionCall | ToolCall(id: Option<string>, name: string, text: string)

  /** One request: a ValueError (no choices, a bad finish reason, a client error of that type),
      another exception, or a reply with its token count. */
  datatype Answer = Retryable | Fails(error: Failure) | Replies(reply: ModelReply, totalTokens: nat)

  /** How running the called tool goes. */
  datatype ToolRun =
    | NotInStore                                   // named by the agent, not found by the tool manager
    | BadArguments
    | Escapes(error: Failure)                      // raised before a response exists, so the handler itself raises
    | ErrorStatus(response: string)
    | Invalid(message: string, response: string)   // validation of the response raises
    | ErrorText(response: string)                  // the response starts like an error message
    | Returns(response: string, heartbeat: bool)

  datatype Summary = Summarized(cutoff: nat, text: string) | NotSummarized(error: Failure)

  /** Everything the world contributes to one attempt of inner_step. */
  datatype Attempt = Attempt(
    refresh: Option<Failure>,        // reading the blocks or rebuilding the prompt raises
    systemText: string,              // the system message after the refresh
    answers: nat -> Answer,          // by request number
    exhausted: Failure,              // what running out of retries looks like
    afterReply: Summary,             // summarizing because the reply's tokens overflow
    toolRun: ToolRun,
    rebuilt: Result<string, Failure>,  // the system message after the tool, or rebuilding it raises
    ruleQueries: Option<Failure>,    // asking the tool rules about the registered call raises
    persist: Option<Failure>,        // logging the step raises
    afterOverflow: Summary)          // summarizing because the attempt overflowed

  /** The tool rules: allowed names (None when it raises), and the three kinds asked after. */
  datatype Rules = Rules(
    allowed: (seq<Option<string>>, Option<string>) -> Option<seq<string>>,
    hasChildren: Option<string> -> bool,
    isTerminal: Option<string> -> bool,
    isContinue: Option<string> -> bool)

  // ----------------------------------------------------------------- tools on offer

  function Without(names: seq<string>, name: Option<string>): (r: seq<string>)
    ensures forall n :: n in r <==> n in names && Some(n) != name
  {
    if names == [] then []
    else (if Some(names[0]) == name then [] else [names[0]]) + Without(names[1..], name)
  }

  function Among(tools: seq<string>, names: seq<string>): (r: seq<string>)
    ensures forall n :: n in r <==> n in tools && n in names
  {
    if tools == [] then []
    else (if tools[0] in names then [tools[0]] else []) + Among(tools[1..], names)
  }

  datatype Offer = RulesRaise | NoneLeft | Offered(functions: seq<string>)

  /** What the rules allow; everything when they allow nothing. */
  function AllowedNames(rules: Rules, tools: seq<string>, history: seq<Option<string>>, response: Option<string>): Option<seq<string>> {
    match rules.allowed(history, response)
    case None => None
    case Some(names) => Some(if names == [] then tools else names)
  }

  /** The functions put before the model. */
  function OfferTools(rules: Rules, tools: seq<string>, history: seq<Option<string>>, response: Option<string>, lastFailed: bool): Offer {
    match AllowedNames(rules, tools, history, response)
    case None => RulesRaise
    case Some(names) =>
      if lastFailed && history != [] then
        var rest := Without(names, history[|history| - 1]);
        if rest == [] then NoneLeft else Offered(Among(tools, rest))
      else Offered(Among(tools, names))
  }

  /** A tool that failed last is not offered; if it was all that is allowed, nothing is. */
  lemma FailedToolNotOffered(rules: Rules, tools: seq<string>, history: seq<Option<string>>, response: Option<string>, name: string)
    requires history != [] && history[|history| - 1] == Some(name)
    ensures var offer := OfferTools(rules, tools, history, response, true);
            var names := AllowedNames(rules, tools, history, response);
            && (offer.Offered? ==> name !in offer.functions)
            && (offer.NoneLeft? <==> names.Some? && forall n <- names.value :: n == name)
  {
    var names := AllowedNames(rules, tools, history, response);
    if names.Some? {
      var rest := Without(names.value, Some(name));
      if rest != [] { assert rest[0] in rest; }
    }
  }

  /** Without a failure on record a tool is offered exactly when it is allowed and there. */
  lemma OfferedWithoutFailure(rules: Rules, tools: seq<string>, history: seq<Option<string>>, response: Option<string>, name: string)
    ensures var offer := OfferTools(rules, tools, history, response, false);
            var names := AllowedNames(rules, tools, history, response);
            offer.Offered? && name in offer.functions <==> names.Some? && name in names.value && name in tools
  {
  }

  // ------------------------------------------------------------------ trimmed history

  /** b is h with a new system message, some packed summaries, and h from some point on; what
      is missing of h is summarized. */
  ghost predicate TrimmedAt(h: seq<Message>, b: seq<Message>, k: nat, j: nat) {
    && 1 <= k <= |h| && 1 <= j <= |b|
    && b[0].role == System
    && (forall i :: 1 <= i < j ==> b[i].summary)
    && b[j..] == h[k..]
    && (k > 1 ==> j > 1)
  }

  /** ... with no more summaries than n. */
  ghost predicate Trimmed(h: seq<Message>, b: seq<Message>, n: nat) {
    exists k: nat, j: nat :: TrimmedAt(h, b, k, j) && j <= n + 1
  }

  /** A history starts with the system message. */
  predicate HasSystem(h: seq<Message>) { h != [] && h[0].role == System }

  lemma TrimmedSame(h: seq<Message>)
    requires HasSystem(h)
    ensures Trimmed(h, h, 0)
  {
    assert TrimmedAt(h, h, 1, 1);
  }

  /** Where nothing was summarized, nothing but the system message may be another. */
  lemma TrimmedWithoutSummary(h: seq<Message>, b: seq<Message>)
    ensures Trimmed(h, b, 0) <==> h != [] && HasSystem(b) && b[1..] == h[1..]
  {
    if h != [] && HasSystem(b) && b[1..] == h[1..] { assert TrimmedAt(h, b, 1, 1); }
  }

  lemma TrimmedTwice(a: seq<Message>, b: seq<Message>, c: seq<Message>, n: nat, m: nat)
    requires Trimmed(a, b, n) && Trimmed(b, c, m)
    ensures Trimmed(a, c, n + m)
  {
    var k: nat, j: nat :| TrimmedAt(a, b, k, j) && j <= n + 1;
    var l: nat, i: nat :| TrimmedAt(b, c, l, i) && i <= m + 1;
    if l >= j {
      assert c[i..] == b[l..] == b[j..][l - j..] == a[k..][l - j..] == a[k + (l - j)..];
      assert TrimmedAt(a, c, k + (l - j), i);
    } else {
      var p := i + (j - l);
      assert c[i..] == b[l..];
      assert c[p..] == c[i..][j - l..] == b[l..][j - l..] == b[j..];
      forall q | 1 <= q < p ensures c[q].summary {
        if q >= i { assert c[q] == c[i..][q - i] == b[l..][q - i] == b[l + (q - i)]; }
      }
      assert TrimmedAt(a, c, k, p);
    }
  }

  function WithSystem(h: seq<Message>, text: string): (r: seq<Message>)
    requires h != []
    ensures |r| == |h| && HasSystem(r)
  {
    [Message(System, text, None, false)] + h[1..]
  }

  lemma WithSystemTrims(h: seq<Message>, text: string)
    requires HasSystem(h)
    ensures Trimmed(h, WithSystem(h, text), 0)
  {
    assert TrimmedAt(h, WithSystem(h, text), 1, 1);
  }

  /** The cutoff lies behind the system message. */
  function Cutoff(h: seq<Message>, raw: nat): (c: nat)
    requires h != []
    ensures 1 <= c <= |h|
  {
    if raw < 1 then 1 else if raw > |h| then |h| else raw
  }

  /** trim_older_in_context_messages, then prepend_to_in_context_messages. */
  function Summarize(h: seq<Message>, raw: nat, text: string): seq<Message>
    requires h != []
  {
    var trimmed := [h[0]] + h[Cutoff(h, raw)..];
    [trimmed[0]] + [Message(User, text, None, true)] + trimmed[1..]
  }

  lemma SummarizeTrims(h: seq<Message>, raw: nat, text: string)
    requires HasSystem(h)
    ensures Trimmed(h, Summarize(h, raw, text), 1) && HasSystem(Summarize(h, raw, text))
  {
    var b, cutoff := Summarize(h, raw, text), Cutoff(h, raw);
    assert ([h[0]] + h[cutoff..])[1..] == h[cutoff..];
    assert b[2..] == h[cutoff..];
    assert TrimmedAt(h, b, cutoff, 2);
  }

  /** What one model response adds: an assistant message, or a call and its answer. */
  predicate IsReply(reply: seq<Message>) {
    || (|reply| == 1 && reply[0].role == Assistant && reply[0].callId == None)
    || (|reply| == 2 && reply[0].role == Assistant && reply[1].role == Tool
        && reply[0].callId.Some? && reply[0].callId == reply[1].callId)
  }
}
