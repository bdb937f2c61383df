/** annotate_message_json_list_with_tool_calls (letta/utils.py:589-701): one pass that pairs
    call messages with response messages through a one-slot buffer. */
module Pairing {
  import opened Wrappers

  /** A dict entry: missing, None, or a value. */
  datatype Field<T> = Absent | Null | Val(v: T)

  datatype Role = Assistant | Function | Tool | Other

  /** What the pass looks at: the role (if any), whether "function_call" is a key, the
      "tool_call_id", and the ids inside "tool_calls". */
  datatype Message = Message(role: Option<Role>, functionCall: bool, callId: Field<string>, toolCalls: Field<seq<Field<string>>>)

  datatype Error = MissingRole | AlreadyAnnotated | NotAdjacent | ToolRolesNotAllowed | NotOneToolCall

  /** The pending id, the index of its call, and the number of ids drawn so far. */
  datatype Buffer = Buffer(pending: Option<string>, index: int, drawn: nat)

  predicate IsFunctionCall(m: Message) { m.role == Some(Assistant) && m.functionCall }

  predicate IsToolCall(m: Message) { m.role == Some(Assistant) && !m.functionCall && m.toolCalls.Val? }

  predicate IsCall(m: Message) { IsFunctionCall(m) || IsToolCall(m) }

  predicate IsResponse(m: Message) { m.role == Some(Function) || m.role == Some(Tool) }

  /** The id a call carries. */
  function IdOfCall(m: Message): Field<string> {
    if m.functionCall then m.callId
    else if m.toolCalls.Val? && m.toolCalls.v != [] then m.toolCalls.v[0]
    else Absent
  }

  /** A step gives the new buffer and what becomes of the message. */
  type Stepped = Result<(Buffer, Message), Error>

  function Call(uuid: nat -> string, b: Buffer, i: nat, m: Message): Stepped {
    if IdOfCall(m).Val? then Ok((Buffer(Some(IdOfCall(m).v), i, b.drawn), m))
    else
      var id := uuid(b.drawn);
      Ok((Buffer(Some(id), i, b.drawn + 1), if m.functionCall then m.(callId := Val(id)) else m.(toolCalls := Val([Val(id)]))))
  }

  function Orphan(uuid: nat -> string, b: Buffer, m: Message): Stepped {
    Ok((b.(drawn := b.drawn + 1), m.(callId := Val(uuid(b.drawn)))))
  }

  function Answer(b: Buffer, m: Message): Stepped
    requires b.pending.Some?
  {
    Ok((b.(pending := None), m.(callId := Val(b.pending.value))))
  }

  function Step(uuid: nat -> string, allowToolRoles: bool, b: Buffer, i: nat, m: Message): Stepped {
    if m.role == None then Err(MissingRole)
    else if IsFunctionCall(m) then Call(uuid, b, i, m)
    else if m.role == Some(Function) then
      if b.pending == None then Orphan(uuid, b, m)
      else if !m.callId.Absent? then Err(AlreadyAnnotated)
      else if i != b.index + 1 then Err(NotAdjacent)
      else Answer(b, m)
    else if IsToolCall(m) then
      if !allowToolRoles then Err(ToolRolesNotAllowed)
      else if |m.toolCalls.v| != 1 then Err(NotOneToolCall)
      else Call(uuid, b, i, m)
    else if m.role == Some(Tool) then
      if !allowToolRoles then Err(ToolRolesNotAllowed)
      else if b.pending == None then Orphan(uuid, b, m)
      else if !m.callId.Val? && i != b.index + 1 then Err(NotAdjacent)
      else Answer(b, m)
    else Ok((b, m))
  }

  /** The buffer in front of message n. */
  function Before(uuid: nat -> string, allowToolRoles: bool, ms: seq<Message>, n: nat): Result<Buffer, Error>
    requires n <= |ms|
    decreases n, 0
  {
    if n == 0 then Ok(Buffer(None, -1, 0))
    else match At(uuid, allowToolRoles, ms, n - 1)
         case Err(e) => Err(e)
         case Ok((b, _)) => Ok(b)
  }

  /** The step at message k. */
  function At(uuid: nat -> string, allowToolRoles: bool, ms: seq<Message>, k: nat): Stepped
    requires k < |ms|
    decreases k, 1
  {
    match Before(uuid, allowToolRoles, ms, k)
    case Err(e) => Err(e)
    case Ok(b) => Step(uuid, allowToolRoles, b, k, ms[k])
  }

  /** The pass over ms returns out. */
  predicate Returns(uuid: nat -> string, allowToolRoles: bool, ms: seq<Message>, out: seq<Message>) {
    && |out| == |ms|
    && forall k :: 0 <= k < |ms| ==> At(uuid, allowToolRoles, ms, k).Ok? && At(uuid, allowToolRoles, ms, k).value.1 == out[k]
  }

  // ------------------------------------------------------------------- the method

  /** The body of the source's loop: what becomes of one message and of the buffer. */
  method AnnotateMessage(uuid: nat -> string, allowToolRoles: bool, i: nat, message: Message, b: Buffer)
    returns (error: Option<Error>, annotated: Message, now: Buffer)
    ensures Step(uuid, allowToolRoles, b, i, message)
         == match error case Some(e) => Err(e) case None => Ok((now, annotated))
  {
    error, annotated := None, message;
    var toolCallId, toolCallIndex, drawn := b.pending, b.index, b.drawn;
    now := b;
    if message.role == None { error := Some(MissingRole); return; }
    if message.role == Some(Assistant) && message.functionCall {
      if message.callId.Val? {
        toolCallId := Some(message.callId.v);
      } else {
        toolCallId := Some(uuid(drawn));
        drawn := drawn + 1;
        annotated := message.(callId := Val(toolCallId.value));
      }
      toolCallIndex := i;
    } else if message.role == Some(Function) {
      if toolCallId == None {
        annotated := message.(callId := Val(uuid(drawn)));
        drawn := drawn + 1;
      } else if !message.callId.Absent? {
        error := Some(AlreadyAnnotated);
      } else if i != toolCallIndex + 1 {
        error := Some(NotAdjacent);
      } else {
        annotated := message.(callId := Val(toolCallId.value));
        toolCallId := None;
      }
    } else if message.role == Some(Assistant) && message.toolCalls.Val? {
      if !allowToolRoles { error := Some(ToolRolesNotAllowed); return; }
      if |message.toolCalls.v| != 1 { error := Some(NotOneToolCall); return; }
      if message.toolCalls.v[0].Val? {
        toolCallId := Some(message.toolCalls.v[0].v);
      } else {
        toolCallId := Some(uuid(drawn));
        drawn := drawn + 1;
        annotated := message.(toolCalls := Val([Val(toolCallId.value)]));
      }
      toolCallIndex := i;
    } else if message.role == Some(Tool) {
      if !allowToolRoles { error := Some(ToolRolesNotAllowed); return; }
      if toolCallId == None {
        annotated := message.(callId := Val(uuid(drawn)));
        drawn := drawn + 1;
      } else if message.callId.Val? {
        if toolCallId.value != message.callId.v {
          annotated := message.(callId := Val(toolCallId.value));
        }
        toolCallId := None;
      } else if i != toolCallIndex + 1 {
        error := Some(NotAdjacent);
      } else {
        annotated := message.(callId := Val(toolCallId.value));
        toolCallId := None;
      }
    }
    now := Buffer(toolCallId, toolCallIndex, drawn);
  }

  /** The source's loop.  Messages are changed in place up to the one that raises; what is
      returned is a copy of them all. */
  method Annotate(uuid: nat -> string, messages: array<Message>, allowToolRoles: bool) returns (r: Result<seq<Message>, Error>)
    modifies messages
    ensures r.Ok? ==> Returns(uuid, allowToolRoles, old(messages[..]), r.value) && messages[..] == r.value
    ensures r.Err? ==> exists k :: 0 <= k < messages.Length && At(uuid, allowToolRoles, old(messages[..]), k) == Err(r.error)
                                   && messages[k..] == old(messages[k..])
                                   && forall j :: 0 <= j < k ==> At(uuid, allowToolRoles, old(messages[..]), j).Ok?
                                                                 && messages[j] == At(uuid, allowToolRoles, old(messages[..]), j).value.1
  {
    ghost var ms := messages[..];
    var buffer := Buffer(None, -1, 0);
    var updatedMessages: seq<Message> := [];
    for i := 0 to messages.Length
      invariant messages[..i] == updatedMessages
      invariant messages[i..] == ms[i..]
      invariant Before(uuid, allowToolRoles, ms, i) == Ok(buffer)
      invariant forall k :: 0 <= k < i ==>
        At(uuid, allowToolRoles, ms, k).Ok? && At(uuid, allowToolRoles, ms, k).value.1 == updatedMessages[k]
    {
      assert messages[i] == messages[i..][0] == ms[i];
      var error, annotated, now := AnnotateMessage(uuid, allowToolRoles, i, messages[i], buffer);
      if error.Some? {
        assert At(uuid, allowToolRoles, ms, i) == Err(error.value);
        return Err(error.value);
      }
      messages[i] := annotated;
      buffer := now;
      updatedMessages := updatedMessages + [annotated];
      assert messages[..i + 1] == messages[..i] + [annotated];
    }
    assert messages[..] == messages[..messages.Length];
    r := Ok(updatedMessages);
  }

  // ---------------------------------------------------------- who answers whom

  predicate IsEvent(m: Message) { IsCall(m) || IsResponse(m) }

  /** The latest call or response before position k. */
  function LastEvent(ms: seq<Message>, k: nat): (r: Option<nat>)
    requires k <= |ms|
    ensures match r
            case None => forall j :: 0 <= j < k ==> !IsEvent(ms[j])
            case Some(c) => c < k && IsEvent(ms[c]) && forall j :: c < j < k ==> !IsEvent(ms[j])
  {
    if k == 0 then None else if IsEvent(ms[k - 1]) then Some(k - 1) else LastEvent(ms, k - 1)
  }

  /** The call whose answer is awaited at position k: no response came since. */
  function PendingCall(ms: seq<Message>, k: nat): Option<nat>
    requires k <= |ms|
  {
    var e := LastEvent(ms, k);
    if e.Some? && IsCall(ms[e.value]) then e else None
  }

  /** The same message up to the id the pass may set. */
  predicate SameButId(m: Message, out: Message) {
    if IsToolCall(m) then out == m.(toolCalls := out.toolCalls) && out.toolCalls.Val? && |out.toolCalls.v| == |m.toolCalls.v| == 1
    else out == m.(callId := out.callId) && (!IsEvent(m) ==> out == m)
  }

  /** One step: the message keeps all but its id, and the buffer afterwards is decided by
      whether it was a call, a response or neither. */
  lemma StepShape(uuid: nat -> string, allowToolRoles: bool, b: Buffer, i: nat, m: Message)
    requires Step(uuid, allowToolRoles, b, i, m).Ok?
    ensures var (now, out) := Step(uuid, allowToolRoles, b, i, m).value;
            && SameButId(m, out)
            && b.drawn <= now.drawn
            && (IsCall(m) ==> now.index == i && now.pending.Some? && IdOfCall(out) == Val(now.pending.value))
            && (IsResponse(m) ==> now.pending == None)
            && (IsResponse(m) && b.pending.Some? ==>
                  out.callId == Val(b.pending.value) && (!m.callId.Val? ==> i == b.index + 1))
            && (IsResponse(m) && b.pending == None ==> out.callId == Val(uuid(b.drawn)) && now.drawn == b.drawn + 1)
            && (!IsEvent(m) ==> now == b)
  {
  }

  /** What the buffer holds in front of message n, said by positions only. */
  lemma {:induction false} BufferHolds(uuid: nat -> string, allowToolRoles: bool, ms: seq<Message>, out: seq<Message>, n: nat)
    requires Returns(uuid, allowToolRoles, ms, out) && n <= |ms|
    ensures Before(uuid, allowToolRoles, ms, n).Ok?
    ensures var b := Before(uuid, allowToolRoles, ms, n).value;
            match PendingCall(ms, n)
            case None => b.pending == None
            case Some(c) => b.index == c && b.pending.Some? && IdOfCall(out[c]) == Val(b.pending.value)
    decreases n
  {
    if n > 0 {
      BufferHolds(uuid, allowToolRoles, ms, out, n - 1);
      var b := Before(uuid, allowToolRoles, ms, n - 1).value;
      assert At(uuid, allowToolRoles, ms, n - 1).Ok?;
      StepShape(uuid, allowToolRoles, b, n - 1, ms[n - 1]);
    }
  }

  /** Whenever the pass returns: same length, same roles, everything kept but ids; the response
      at k carries the id of the call it answers, or the next fresh id when it answers none; a
      response without an id of its own directly follows its call. */
  lemma ResponsesPaired(uuid: nat -> string, allowToolRoles: bool, ms: seq<Message>, out: seq<Message>, k: nat)
    requires Returns(uuid, allowToolRoles, ms, out) && k < |ms|
    ensures SameButId(ms[k], out[k]) && out[k].role == ms[k].role
    ensures Before(uuid, allowToolRoles, ms, k).Ok?
    ensures IsResponse(ms[k]) ==>
            match PendingCall(ms, k)
            case Some(c) => out[k].callId.Val? && out[k].callId == IdOfCall(out[c]) && (!ms[k].callId.Val? ==> k == c + 1)
            case None => out[k].callId == Val(uuid(Before(uuid, allowToolRoles, ms, k).value.drawn))
  {
    BufferHolds(uuid, allowToolRoles, ms, out, k);
    assert At(uuid, allowToolRoles, ms, k).Ok?;
    StepShape(uuid, allowToolRoles, Before(uuid, allowToolRoles, ms, k).value, k, ms[k]);
  }

  // ------------------------------------------------------------ when the pass returns

  /** What counts as a call, as a response, and as a call's id. */
  lemma KindsWritten(m: Message)
    ensures IsCall(m) <==> m.role == Some(Assistant) && (m.functionCall || m.toolCalls.Val?)
    ensures IsResponse(m) <==> m.role == Some(Function) || m.role == Some(Tool)
    ensures IsCall(m) && m.functionCall ==> IdOfCall(m) == m.callId
    ensures IsCall(m) && !m.functionCall && |m.toolCalls.v| > 0 ==> IdOfCall(m) == m.toolCalls.v[0]
  {
  }

  /** Message k is in order: it has a role; a function message that answers a call has no id field
      and follows the call directly; tool calls and tool messages are allowed, a tool call is one
      call, and a tool message that answers a call has an id or follows it directly. */
  predicate InOrder(allowToolRoles: bool, ms: seq<Message>, k: nat)
    requires k < |ms|
  {
    var m, call := ms[k], PendingCall(ms, k);
    && m.role.Some?
    && (m.role == Some(Function) && call.Some? ==> m.callId.Absent? && k == call.value + 1)
    && (m.role == Some(Assistant) && !m.functionCall && m.toolCalls.Val? ==> allowToolRoles && |m.toolCalls.v| == 1)
    && (m.role == Some(Tool) ==> allowToolRoles && (call.Some? && !m.callId.Val? ==> k == call.value + 1))
  }

  /** The pass goes on as long as messages are in order, and its buffer is told by positions. */
  lemma {:induction false} GoesOnExactly(uuid: nat -> string, allowToolRoles: bool, ms: seq<Message>, n: nat)
    requires n <= |ms|
    ensures Before(uuid, allowToolRoles, ms, n).Ok? <==> forall k :: 0 <= k < n ==> InOrder(allowToolRoles, ms, k)
    ensures Before(uuid, allowToolRoles, ms, n).Ok? ==>
            var b := Before(uuid, allowToolRoles, ms, n).value;
            match PendingCall(ms, n)
            case None => b.pending == None
            case Some(c) => b.pending.Some? && b.index == c
    decreases n
  {
    if n > 0 {
      GoesOnExactly(uuid, allowToolRoles, ms, n - 1);
      if Before(uuid, allowToolRoles, ms, n - 1).Ok? {
        StepOkExactly(uuid, allowToolRoles, Before(uuid, allowToolRoles, ms, n - 1).value, n - 1, ms);
      }
    }
  }

  lemma StepOkExactly(uuid: nat -> string, allowToolRoles: bool, b: Buffer, k: nat, ms: seq<Message>)
    requires k < |ms|
    requires match PendingCall(ms, k) case None => b.pending == None case Some(c) => b.pending.Some? && b.index == c
    ensures Step(uuid, allowToolRoles, b, k, ms[k]).Ok? <==> InOrder(allowToolRoles, ms, k)
  {
  }

  /** What the pass raises at the first message that is not in order. */
  lemma RaisesByCase(uuid: nat -> string, allowToolRoles: bool, ms: seq<Message>, k: nat)
    requires k < |ms| && !InOrder(allowToolRoles, ms, k) && forall j :: 0 <= j < k ==> InOrder(allowToolRoles, ms, j)
    ensures At(uuid, allowToolRoles, ms, k) == Err(
      match ms[k].role
      case None => MissingRole
      case Some(Function) => if ms[k].callId.Absent? then NotAdjacent else AlreadyAnnotated
      case Some(Tool) => if allowToolRoles then NotAdjacent else ToolRolesNotAllowed
      case _ => if allowToolRoles then NotOneToolCall else ToolRolesNotAllowed)
  {
    GoesOnExactly(uuid, allowToolRoles, ms, k);
  }

  /** The pass returns exactly if every message is in order, and else raises at the first that is
      not. */
  lemma ReturnsExactly(uuid: nat -> string, allowToolRoles: bool, ms: seq<Message>)
    ensures (exists out :: Returns(uuid, allowToolRoles, ms, out)) <==> forall k :: 0 <= k < |ms| ==> InOrder(allowToolRoles, ms, k)
    ensures forall k :: 0 <= k < |ms| && !InOrder(allowToolRoles, ms, k) && (forall j :: 0 <= j < k ==> InOrder(allowToolRoles, ms, j)) ==>
      At(uuid, allowToolRoles, ms, k).Err? && forall j :: 0 <= j < k ==> At(uuid, allowToolRoles, ms, j).Ok?
  {
    forall k | 0 <= k < |ms|
      ensures At(uuid, allowToolRoles, ms, k).Ok? <==> forall j :: 0 <= j <= k ==> InOrder(allowToolRoles, ms, j)
    {
      GoesOnExactly(uuid, allowToolRoles, ms, k);
      GoesOnExactly(uuid, allowToolRoles, ms, k + 1);
    }
    if forall k :: 0 <= k < |ms| ==> InOrder(allowToolRoles, ms, k) {
      var out := seq(|ms|, k requires 0 <= k < |ms| && At(uuid, allowToolRoles, ms, k).Ok? => At(uuid, allowToolRoles, ms, k).value.1);
      assert Returns(uuid, allowToolRoles, ms, out);
    } else if out :| Returns(uuid, allowToolRoles, ms, out) {
      var k :| 0 <= k < |ms| && !InOrder(allowToolRoles, ms, k);
      assert At(uuid, allowToolRoles, ms, k).Ok?;
    }
  }

  // --------------------------------------------------------------- every id once

  /** The message gets a new id: a call without one, or a response that answers no call. */
  predicate DrawsAt(ms: seq<Message>, k: nat)
    requires k < |ms|
  {
    (IsCall(ms[k]) && !IdOfCall(ms[k]).Val?) || (IsResponse(ms[k]) && PendingCall(ms, k) == None)
  }

  function Draws(ms: seq<Message>, n: nat): nat
    requires n <= |ms|
  {
    if n == 0 then 0 else Draws(ms, n - 1) + if DrawsAt(ms, n - 1) then 1 else 0
  }

  lemma {:induction false} DrawsGrow(ms: seq<Message>, j: nat, k: nat)
    requires j < k <= |ms| && DrawsAt(ms, j)
    ensures Draws(ms, j) < Draws(ms, k)
    decreases k
  {
    if j + 1 < k { DrawsGrow(ms, j, k - 1); }
  }

  lemma {:induction false} DrawnSoFar(uuid: nat -> string, allowToolRoles: bool, ms: seq<Message>, out: seq<Message>, n: nat)
    requires Returns(uuid, allowToolRoles, ms, out) && n <= |ms|
    ensures Before(uuid, allowToolRoles, ms, n).Ok? && Before(uuid, allowToolRoles, ms, n).value.drawn == Draws(ms, n)
    decreases n
  {
    if n > 0 {
      DrawnSoFar(uuid, allowToolRoles, ms, out, n - 1);
      BufferHolds(uuid, allowToolRoles, ms, out, n - 1);
      assert At(uuid, allowToolRoles, ms, n - 1).Ok?;
    }
  }

  /** The id a call or a response has. */
  function IdOf(m: Message): Field<string> { if IsCall(m) then IdOfCall(m) else m.callId }

  /** A call keeps its own id or gets the next new one. */
  lemma CallIds(uuid: nat -> string, allowToolRoles: bool, ms: seq<Message>, out: seq<Message>, k: nat)
    requires Returns(uuid, allowToolRoles, ms, out) && k < |ms| && IsEvent(ms[k])
    ensures DrawsAt(ms, k) ==> IdOf(out[k]) == Val(uuid(Draws(ms, k)))
    ensures IsCall(ms[k]) && !DrawsAt(ms, k) ==> IdOf(out[k]) == IdOfCall(ms[k])
  {
    DrawnSoFar(uuid, allowToolRoles, ms, out, k);
    BufferHolds(uuid, allowToolRoles, ms, out, k);
    assert At(uuid, allowToolRoles, ms, k).Ok?;
  }

  ghost predicate Injective(uuid: nat -> string) {
    forall m, n :: m != n ==> uuid(m) != uuid(n)
  }

  /** Every new id is written once. */
  lemma DrawnOnce(uuid: nat -> string, allowToolRoles: bool, ms: seq<Message>, out: seq<Message>, j: nat, k: nat)
    requires Returns(uuid, allowToolRoles, ms, out) && j < k < |ms| && Injective(uuid)
    requires DrawsAt(ms, j) && DrawsAt(ms, k)
    ensures IdOf(out[j]).Val? && IdOf(out[k]).Val? && IdOf(out[j]) != IdOf(out[k])
  {
    CallIds(uuid, allowToolRoles, ms, out, j);
    CallIds(uuid, allowToolRoles, ms, out, k);
    DrawsGrow(ms, j, k);
  }

  /** The calls' own ids are different, and none of them will be drawn. */
  ghost predicate OwnIdsApart(uuid: nat -> string, ms: seq<Message>) {
    && (forall c, n :: 0 <= c < |ms| && IsCall(ms[c]) ==> IdOfCall(ms[c]) != Val(uuid(n)))
    && (forall c, d :: 0 <= c < d < |ms| && IsCall(ms[c]) && IsCall(ms[d]) && IdOfCall(ms[c]).Val? ==> IdOfCall(ms[c]) != IdOfCall(ms[d]))
  }

  /** Where a response's id comes from: the call it answers, or itself. */
  function SourceOf(ms: seq<Message>, k: nat): (s: nat)
    requires k < |ms|
    ensures s <= k
  {
    if PendingCall(ms, k).Some? then PendingCall(ms, k).value else k
  }

  lemma SourceHasId(uuid: nat -> string, allowToolRoles: bool, ms: seq<Message>, out: seq<Message>, k: nat)
    requires Returns(uuid, allowToolRoles, ms, out) && k < |ms| && IsResponse(ms[k])
    ensures var s := SourceOf(ms, k);
            IsEvent(ms[s]) && out[k].callId.Val? && out[k].callId == IdOf(out[s]) && (IsCall(ms[s]) || DrawsAt(ms, s))
  {
    ResponsesPaired(uuid, allowToolRoles, ms, out, k);
    ResponsesPaired(uuid, allowToolRoles, ms, out, SourceOf(ms, k));
  }

  /** No id answers twice: with ids that can be told apart, any two responses carry different
      ones, and so no call is answered by two. */
  lemma AnsweredOnce(uuid: nat -> string, allowToolRoles: bool, ms: seq<Message>, out: seq<Message>, j: nat, k: nat)
    requires Returns(uuid, allowToolRoles, ms, out) && j < k < |ms| && IsResponse(ms[j]) && IsResponse(ms[k])
    requires Injective(uuid) && OwnIdsApart(uuid, ms)
    ensures out[j].callId.Val? && out[k].callId.Val? && out[j].callId != out[k].callId
    ensures PendingCall(ms, j).Some? ==> PendingCall(ms, k) != PendingCall(ms, j)
  {
    var e := LastEvent(ms, k);
    var s, t := SourceOf(ms, j), SourceOf(ms, k);
    assert IsEvent(ms[j]) && j <= e.value;
    assert s < t;
    SourceHasId(uuid, allowToolRoles, ms, out, j);
    SourceHasId(uuid, allowToolRoles, ms, out, k);
    CallIds(uuid, allowToolRoles, ms, out, s);
    CallIds(uuid, allowToolRoles, ms, out, t);
    if DrawsAt(ms, s) && DrawsAt(ms, t) { DrawnOnce(uuid, allowToolRoles, ms, out, s, t); }
  }

  // ------------------------------------------------------------------ idempotence

  /** A tool response that answers a call. */
  predicate Settled(ms: seq<Message>, k: nat)
    requires k < |ms|
  {
    IsResponse(ms[k]) ==> ms[k].role == Some(Tool) && PendingCall(ms, k).Some?
  }

  /** A step over its own result, with the same buffer, changes nothing. */
  lemma StepAgain(uuid: nat -> string, again: nat -> string, allowToolRoles: bool, b: Buffer, drawn: nat, i: nat, m: Message)
    requires Step(uuid, allowToolRoles, b, i, m).Ok?
    requires IsResponse(m) ==> m.role == Some(Tool) && b.pending.Some?
    ensures var (now, out) := Step(uuid, allowToolRoles, b, i, m).value;
            Step(again, allowToolRoles, b.(drawn := drawn), i, out) == Ok((now.(drawn := drawn), out))
  {
  }

  /** As long as responses are settled, a second pass goes through the same buffers. */
  lemma {:induction false} SecondPassInStep(uuid: nat -> string, again: nat -> string, allowToolRoles: bool,
                                            ms: seq<Message>, out: seq<Message>, n: nat)
    requires Returns(uuid, allowToolRoles, ms, out) && n <= |ms|
    requires forall k :: 0 <= k < n ==> Settled(ms, k)
    ensures Before(uuid, allowToolRoles, ms, n).Ok?
    ensures Before(again, allowToolRoles, out, n) == Ok(Before(uuid, allowToolRoles, ms, n).value.(drawn := 0))
    ensures forall k :: 0 <= k < n ==> At(again, allowToolRoles, out, k).Ok? && At(again, allowToolRoles, out, k).value.1 == out[k]
    decreases n
  {
    if n > 0 {
      SecondPassInStep(uuid, again, allowToolRoles, ms, out, n - 1);
      BufferHolds(uuid, allowToolRoles, ms, out, n - 1);
      var b := Before(uuid, allowToolRoles, ms, n - 1).value;
      assert Settled(ms, n - 1) && At(uuid, allowToolRoles, ms, n - 1).Ok?;
      StepAgain(uuid, again, allowToolRoles, b, 0, n - 1, ms[n - 1]);
    }
  }

  /** A second pass over the result, with ids it has not seen, returns the same result exactly
      when every response is a tool message that answers a call. */
  lemma IdempotentExactly(uuid: nat -> string, again: nat -> string, allowToolRoles: bool, ms: seq<Message>, out: seq<Message>)
    requires Returns(uuid, allowToolRoles, ms, out)
    requires forall k :: 0 <= k < |out| ==> out[k].callId != Val(again(0))
    ensures Returns(again, allowToolRoles, out, out) <==> forall k :: 0 <= k < |ms| ==> Settled(ms, k)
  {
    var n := 0;
    while n < |ms| && Settled(ms, n)
      invariant n <= |ms| && forall k :: 0 <= k < n ==> Settled(ms, k)
    {
      n := n + 1;
    }
    SecondPassInStep(uuid, again, allowToolRoles, ms, out, n);
    if n < |ms| {
      ResponsesPaired(uuid, allowToolRoles, ms, out, n);
      BufferHolds(uuid, allowToolRoles, ms, out, n);
      UnsettledStep(again, allowToolRoles, Before(again, allowToolRoles, out, n).value, n, out[n]);
    }
  }

  /** An annotated response that is unsettled raises or changes. */
  lemma UnsettledStep(again: nat -> string, allowToolRoles: bool, b: Buffer, i: nat, m: Message)
    requires b.drawn == 0 && IsResponse(m) && m.callId.Val? && m.callId != Val(again(0))
    requires m.role == Some(Function) || b.pending == None
    ensures var step := Step(again, allowToolRoles, b, i, m);
            step.Ok? ==> step.value.1 != m
  {
  }
}
