/** The GLM-4.7 parser inverts its documented format
    (letta/adapters/sglang_native_adapter.py:181-220, 262-263). */
module GlmRoundTrip {
  import opened Wrappers
  import opened Sequences
  import opened PythonStrings
  import opened GlmFormat

  // ------------------------------------------------------------------- rendering

  /** <arg_key>key</arg_key> gap <arg_value>value</arg_value> tail */
  datatype Arg = Arg(key: string, gap: string, value: string, tail: string)

  /** <tool_call> lead name pad arguments </tool_call> */
  datatype Call = Call(lead: string, name: string, pad: string, args: seq<Arg>)

  datatype Piece = Plain(text: string) | Tool(call: Call)

  function ArgText(a: Arg): string {
    (KeyOpen + a.key) + ((KeyClose + a.gap) + ((ValueOpen + a.value) + (ValueClose + a.tail)))
  }

  function ArgsText(args: seq<Arg>): string {
    if args == [] then "" else ArgText(args[0]) + ArgsText(args[1..])
  }

  function InnerText(c: Call): string { c.lead + (c.name + (c.pad + ArgsText(c.args))) }

  function PiecesText(ps: seq<Piece>): string {
    if ps == [] then ""
    else (match ps[0] case Plain(text) => text case Tool(call) => CallOpen + (InnerText(call) + CallClose)) + PiecesText(ps[1..])
  }

  predicate NoTag(s: string) {
    forall i :: 0 <= i < |s| ==> s[i] != '<'
  }

  /** The tag is nowhere in the text. */
  predicate Clear(s: string, tag: string) {
    forall i :: 0 <= i <= |s| ==> !(tag <= s[i..])
  }

  /** No field holds the closing call tag, nor a tag that a search would meet in it: the opening
      ones between arguments, and a key's or value's own closing one within. */
  predicate IsArg(a: Arg) {
    && Clear(a.key, CallClose) && Clear(a.key, KeyClose) && Clear(a.key, ValueOpen)
    && Clear(a.gap, CallClose) && Clear(a.gap, KeyOpen) && Clear(a.gap, ValueOpen)
    && Clear(a.value, CallClose) && Clear(a.value, ValueClose) && Clear(a.value, KeyOpen)
    && Clear(a.tail, CallClose) && Clear(a.tail, KeyOpen) && Clear(a.tail, ValueOpen)
  }

  /** A trimmed one-line name that is no JSON. */
  predicate IsName(n: string) {
    && n != "" && NoTag(n) && (forall i :: 0 <= i < |n| ==> n[i] != '\n')
    && !IsSpace(n[0]) && !IsSpace(n[|n| - 1]) && n[0] != '{'
  }

  predicate IsCall(c: Call) {
    AllSpace(c.lead) && IsName(c.name) && AllSpace(c.pad) && forall a <- c.args :: IsArg(a)
  }

  predicate IsPiece(p: Piece) {
    match p case Plain(text) => Clear(text, CallOpen) case Tool(call) => IsCall(call)
  }

  /** Plain segments and calls, where plain text between two calls is one segment. */
  predicate IsText(ps: seq<Piece>) {
    && (forall p <- ps :: IsPiece(p))
    && forall i :: 0 <= i < |ps| - 1 ==> ps[i].Tool? || ps[i + 1].Tool?
  }

  // ------------------------------------------------------------- searching past text

  /** An angle bracket, and no other behind it. */
  predicate IsTag(tag: string) {
    tag != "" && tag[0] == '<' && forall i :: 1 <= i < |tag| ==> tag[i] != '<'
  }

  /** What follows a field: a tag, or nothing. */
  predicate TagNext(y: string) { y == "" || y[0] == '<' }

  lemma TagsAreTags()
    ensures IsTag(CallOpen) && IsTag(CallClose) && IsTag(KeyOpen) && IsTag(KeyClose) && IsTag(ValueOpen) && IsTag(ValueClose)
  {
  }

  /** What was found in a text, where more text stands before it. */
  function Behind(x: string, found: Option<(string, string)>): Option<(string, string)> {
    match found
    case None => None
    case Some((before, after)) => Some((x + before, after))
  }

  lemma {:induction false} SkipPlain(x: string, y: string, tag: string)
    requires NoTag(x) && tag != "" && tag[0] == '<'
    ensures Split(x + y, tag) == Behind(x, Split(y, tag))
    decreases x
  {
    if x == "" {
      assert x + y == y;
      assert Split(y, tag).Some? ==> x + Split(y, tag).value.0 == Split(y, tag).value.0;
    } else {
      assert (x + y)[0] == x[0] && (x + y)[1..] == x[1..] + y;
      SkipPlain(x[1..], y, tag);
      if Split(y, tag).Some? {
        Regroup([x[0]], x[1..], Split(y, tag).value.0);
        assert [x[0]] + x[1..] == x;
      }
    }
  }

  /** The same for text without the tag, when another tag or nothing follows: no tag stands
      across the border, because it has one angle bracket only. */
  lemma {:induction false} SkipClear(x: string, y: string, tag: string)
    requires Clear(x, tag) && IsTag(tag) && TagNext(y)
    ensures Split(x + y, tag) == Behind(x, Split(y, tag))
    decreases x
  {
    if x == "" {
      assert x + y == y;
      assert Split(y, tag).Some? ==> x + Split(y, tag).value.0 == Split(y, tag).value.0;
    } else {
      NotAcross(x, y, tag);
      assert (x + y)[0] == x[0] && (x + y)[1..] == x[1..] + y;
      ClearTail(x, tag);
      SkipClear(x[1..], y, tag);
      if Split(y, tag).Some? {
        Regroup([x[0]], x[1..], Split(y, tag).value.0);
        assert [x[0]] + x[1..] == x;
      }
    }
  }

  lemma ClearTail(x: string, tag: string)
    requires x != "" && Clear(x, tag)
    ensures Clear(x[1..], tag)
  {
    forall i | 0 <= i <= |x[1..]| ensures !(tag <= x[1..][i..]) { assert x[1..][i..] == x[i + 1..]; }
  }

  lemma NotAcross(x: string, y: string, tag: string)
    requires x != "" && Clear(x, tag) && IsTag(tag) && TagNext(y)
    ensures !(tag <= x + y)
  {
    assert !(tag <= x[0..]) && x[0..] == x;
    if |tag| > |x| {
      assert y != "" ==> (x + y)[|x|] != tag[|x|];
    } else {
      assert (x + y)[..|tag|] == x[..|tag|];
    }
  }

  /** Another tag and a field without the tag searched. */
  lemma ClearTagged(other: string, field: string, tag: string, k: nat)
    requires IsTag(other) && Clear(field, tag) && IsTag(tag)
    requires k < |tag| && k < |other| && tag[k] != other[k]
    ensures Clear(other + field, tag)
  {
    var x := other + field;
    forall i | 0 <= i <= |x| ensures !(tag <= x[i..]) {
      if i == 0 {
        assert x[0..][k] == other[k];
      } else if i < |other| {
        assert x[i..][0] == other[i];
      } else {
        assert x[i..] == field[i - |other|..];
      }
    }
  }

  lemma SkipTagged(other: string, field: string, y: string, tag: string, k: nat)
    requires IsTag(other) && Clear(field, tag) && IsTag(tag) && TagNext(y)
    requires k < |tag| && k < |other| && tag[k] != other[k]
    ensures Split((other + field) + y, tag) == Behind(other + field, Split(y, tag))
  {
    ClearTagged(other, field, tag, k);
    SkipClear(other + field, y, tag);
  }

  lemma SplitHere(tag: string, y: string)
    ensures Split(tag + y, tag) == Some(("", y))
  {
    assert tag <= tag + y && (tag + y)[|tag|..] == y;
  }

  /** Text that no opening tag starts in contributes no inner text. */
  lemma InnersSkip(x: string, y: string, open: string, close: string)
    requires open != ""
    requires Split(x + y, open) == Behind(x, Split(y, open))
    ensures Inners(x + y, open, close) == Inners(y, open, close)
  {
  }

  lemma InnersTake(open: string, inner: string, close: string, y: string)
    requires open != "" && Split(inner + (close + y), close) == Some((inner, y))
    ensures Inners(open + (inner + (close + y)), open, close) == [inner] + Inners(y, open, close)
  {
    SplitHere(open, inner + (close + y));
  }

  // ------------------------------------------------------------- keys and values

  function Keys(args: seq<Arg>): seq<string> {
    if args == [] then [] else [args[0].key] + Keys(args[1..])
  }

  function Values(args: seq<Arg>): seq<string> {
    if args == [] then [] else [args[0].value] + Values(args[1..])
  }

  lemma FieldThenClose(x: string, close: string, y: string)
    requires Clear(x, close) && IsTag(close)
    ensures Split(x + (close + y), close) == Some((x, y))
  {
    SplitHere(close, y);
    SkipClear(x, close + y, close);
    assert x + "" == x;
  }

  lemma KeyFound(a: Arg, rest: string)
    requires IsArg(a) && TagNext(rest)
    ensures Inners(ArgText(a) + rest, KeyOpen, KeyClose) == [a.key] + Inners(rest, KeyOpen, KeyClose)
  {
    var closed := (ValueClose + a.tail) + rest;
    var value := (ValueOpen + a.value) + closed;
    TagsAreTags();
    SkipTagged(ValueClose, a.tail, rest, KeyOpen, 1);
    InnersSkip(ValueClose + a.tail, rest, KeyOpen, KeyClose);
    SkipTagged(ValueOpen, a.value, closed, KeyOpen, 5);
    InnersSkip(ValueOpen + a.value, closed, KeyOpen, KeyClose);
    SkipClear(a.gap, value, KeyOpen);
    InnersSkip(a.gap, value, KeyOpen, KeyClose);
    FieldThenClose(a.key, KeyClose, a.gap + value);
    InnersTake(KeyOpen, a.key, KeyClose, a.gap + value);
    ArgTextForKey(a, rest);
  }

  lemma {:induction false} KeysFound(args: seq<Arg>)
    requires forall a <- args :: IsArg(a)
    ensures Inners(ArgsText(args), KeyOpen, KeyClose) == Keys(args)
  {
    if args != [] {
      assert IsArg(args[0]);
      KeysFound(args[1..]);
      ArgsStart(args[1..]);
      KeyFound(args[0], ArgsText(args[1..]));
    }
  }

  lemma ArgTextForKey(a: Arg, rest: string)
    ensures ArgText(a) + rest
         == KeyOpen + (a.key + (KeyClose + (a.gap + ((ValueOpen + a.value) + ((ValueClose + a.tail) + rest)))))
  {
    var closed := ValueClose + a.tail;
    var valued := ValueOpen + a.value;
    Regroup(KeyOpen + a.key, (KeyClose + a.gap) + (valued + closed), rest);
    Regroup(KeyClose + a.gap, valued + closed, rest);
    Regroup(valued, closed, rest);
    Regroup(KeyOpen, a.key, (KeyClose + a.gap) + (valued + (closed + rest)));
    Regroup(KeyClose, a.gap, valued + (closed + rest));
  }

  lemma ArgTextInChunks(a: Arg, rest: string)
    ensures ArgText(a) + rest
         == (KeyOpen + a.key) + ((KeyClose + a.gap) + ((ValueOpen + a.value) + ((ValueClose + a.tail) + rest)))
  {
    var closed := ValueClose + a.tail;
    var valued := ValueOpen + a.value;
    Regroup(KeyOpen + a.key, (KeyClose + a.gap) + (valued + closed), rest);
    Regroup(KeyClose + a.gap, valued + closed, rest);
    Regroup(valued, closed, rest);
  }

  lemma ValueTaken(a: Arg, rest: string)
    requires IsArg(a) && TagNext(rest)
    ensures Inners(ValueOpen + (a.value + (ValueClose + (a.tail + rest))), ValueOpen, ValueClose)
         == [a.value] + Inners(rest, ValueOpen, ValueClose)
  {
    TagsAreTags();
    SkipClear(a.tail, rest, ValueOpen);
    InnersSkip(a.tail, rest, ValueOpen, ValueClose);
    FieldThenClose(a.value, ValueClose, a.tail + rest);
    InnersTake(ValueOpen, a.value, ValueClose, a.tail + rest);
  }

  lemma KeyPassed(a: Arg, y: string)
    requires IsArg(a) && TagNext(y)
    ensures Inners((KeyOpen + a.key) + ((KeyClose + a.gap) + y), ValueOpen, ValueClose) == Inners(y, ValueOpen, ValueClose)
  {
    TagsAreTags();
    SkipTagged(KeyClose, a.gap, y, ValueOpen, 1);
    InnersSkip(KeyClose + a.gap, y, ValueOpen, ValueClose);
    SkipTagged(KeyOpen, a.key, (KeyClose + a.gap) + y, ValueOpen, 5);
    InnersSkip(KeyOpen + a.key, (KeyClose + a.gap) + y, ValueOpen, ValueClose);
  }

  lemma ValueFound(a: Arg, rest: string)
    requires IsArg(a) && TagNext(rest)
    ensures Inners(ArgText(a) + rest, ValueOpen, ValueClose) == [a.value] + Inners(rest, ValueOpen, ValueClose)
  {
    var closed := ValueClose + (a.tail + rest);
    ValueTaken(a, rest);
    KeyPassed(a, ValueOpen + (a.value + closed));
    ArgTextInChunks(a, rest);
    Regroup(ValueClose, a.tail, rest);
    Regroup(ValueOpen, a.value, closed);
  }

  lemma {:induction false} ValuesFound(args: seq<Arg>)
    requires forall a <- args :: IsArg(a)
    ensures Inners(ArgsText(args), ValueOpen, ValueClose) == Values(args)
  {
    if args != [] {
      assert IsArg(args[0]);
      ValuesFound(args[1..]);
      ArgsStart(args[1..]);
      ValueFound(args[0], ArgsText(args[1..]));
    }
  }

  lemma ArgPassed(a: Arg, more: string, before: string, after: string)
    requires IsArg(a) && Split(more, CallClose) == Some((before, after)) && TagNext(more)
    ensures Split(ArgText(a) + more, CallClose) == Some((ArgText(a) + before, after))
  {
    var t3 := (ValueClose + a.tail) + more;
    var t2 := (ValueOpen + a.value) + t3;
    var t1 := (KeyClose + a.gap) + t2;
    TagsAreTags();
    SkipTagged(ValueClose, a.tail, more, CallClose, 2);
    SkipTagged(ValueOpen, a.value, t3, CallClose, 1);
    SkipTagged(KeyClose, a.gap, t2, CallClose, 2);
    SkipTagged(KeyOpen, a.key, t1, CallClose, 1);
    ArgTextInChunks(a, more);
    ArgTextInChunks(a, before);
  }

  /** The arguments hide no closing call tag. */
  lemma {:induction false} ArgsPassed(args: seq<Arg>, y: string)
    requires forall a <- args :: IsArg(a)
    ensures Split(ArgsText(args) + (CallClose + y), CallClose) == Some((ArgsText(args), y))
  {
    if args == [] {
      assert ArgsText(args) + (CallClose + y) == CallClose + y;
      SplitHere(CallClose, y);
    } else {
      var rest := ArgsText(args[1..]);
      ArgsPassed(args[1..], y);
      ArgsStart(args[1..]);
      assert IsArg(args[0]);
      ArgPassed(args[0], rest + (CallClose + y), rest, y);
      Regroup(ArgText(args[0]), rest, CallClose + y);
    }
  }

  lemma InnerPassed(c: Call, y: string)
    requires IsCall(c)
    ensures Split(InnerText(c) + (CallClose + y), CallClose) == Some((InnerText(c), y))
  {
    var args, close := ArgsText(c.args), CallClose + y;
    SpaceHasNoTag(c.lead);
    SpaceHasNoTag(c.pad);
    ArgsPassed(c.args, y);
    SkipPlain(c.pad, args + close, CallClose);
    SkipPlain(c.name, c.pad + (args + close), CallClose);
    SkipPlain(c.lead, c.name + (c.pad + (args + close)), CallClose);
    Regroup(c.pad, args, close);
    Regroup(c.name, c.pad + args, close);
    Regroup(c.lead, c.name + (c.pad + args), close);
  }

  lemma SpaceHasNoTag(s: string)
    requires AllSpace(s)
    ensures NoTag(s)
  {
    forall i | 0 <= i < |s| ensures s[i] != '<' { assert IsSpace(s[i]); }
  }

  // --------------------------------------------------------------- one call's text

  /** The arguments with the white text at the very end gone. */
  function Trimmed(args: seq<Arg>): seq<Arg> {
    if args == [] then []
    else if |args| == 1 then [args[0].(tail := StripRight(args[0].tail))]
    else [args[0]] + Trimmed(args[1..])
  }

  lemma ClearPrefix(kept: string, s: string, tag: string)
    requires kept <= s && Clear(s, tag)
    ensures Clear(kept, tag)
  {
    forall i | 0 <= i <= |kept| ensures !(tag <= kept[i..]) { assert kept[i..] <= s[i..]; }
  }

  lemma {:induction false} TrimmedSame(args: seq<Arg>)
    requires forall a <- args :: IsArg(a)
    ensures Keys(Trimmed(args)) == Keys(args) && Values(Trimmed(args)) == Values(args)
    ensures forall a <- Trimmed(args) :: IsArg(a)
  {
    if |args| == 1 {
      assert IsArg(args[0]);
      StripRightIsPrefix(args[0].tail);
      var kept := StripRight(args[0].tail);
      ClearPrefix(kept, args[0].tail, CallClose);
      ClearPrefix(kept, args[0].tail, KeyOpen);
      ClearPrefix(kept, args[0].tail, ValueOpen);
      assert args[1..] == [] && Trimmed(args)[1..] == [];
    } else if args != [] {
      TrimmedSame(args[1..]);
      assert Trimmed(args)[1..] == Trimmed(args[1..]);
      assert IsArg(args[0]);
    }
  }

  lemma EndsInTag(x: string, close: string)
    requires close != "" && close[|close| - 1] == '>'
    ensures x + close != "" && !IsSpace((x + close)[|x + close| - 1])
  {
  }

  lemma {:induction false} ArgsTrimmed(x: string, args: seq<Arg>)
    requires args != []
    ensures StripRight(x + ArgsText(args)) == x + ArgsText(Trimmed(args))
    decreases args
  {
    var a := args[0];
    if |args| == 1 {
      var b := a.(tail := StripRight(a.tail));
      assert args[1..] == [] && Trimmed(args)[1..] == [];
      assert ArgsText(args) == ArgText(a) && ArgsText(Trimmed(args)) == ArgText(b);
      ArgTextToTail(x, a);
      ArgTextToTail(x, b);
      EndsInTag(BeforeTail(x, a), ValueClose);
      StripRightWithin(BeforeTail(x, a) + ValueClose, a.tail);
    } else {
      Regroup(x, ArgText(a), ArgsText(args[1..]));
      ArgsTrimmed(x + ArgText(a), args[1..]);
      assert Trimmed(args)[1..] == Trimmed(args[1..]);
      Regroup(x, ArgText(a), ArgsText(Trimmed(args[1..])));
    }
  }

  function BeforeTail(x: string, a: Arg): string {
    x + (KeyOpen + a.key) + (KeyClose + a.gap) + (ValueOpen + a.value)
  }

  lemma ArgTextToTail(x: string, a: Arg)
    ensures x + ArgText(a) == BeforeTail(x, a) + ValueClose + a.tail
  {
    var k, g, v, t := KeyOpen + a.key, KeyClose + a.gap, ValueOpen + a.value, ValueClose + a.tail;
    Regroup(x, k, g + (v + t));
    Regroup(x + k, g, v + t);
    Regroup(x + k + g, v, t);
    Regroup(x + k + g + v, ValueClose, a.tail);
  }

  /** What strip leaves of the text between the call tags. */
  lemma InnerStripped(c: Call)
    requires IsCall(c)
    ensures Strip(InnerText(c)) == c.name + ((if c.args == [] then "" else c.pad) + ArgsText(Trimmed(c.args)))
  {
    var tail := c.pad + ArgsText(c.args);
    StripLeftOfSpace(c.lead);
    assert (c.name + tail)[0] == c.name[0];
    StripLeftThrough(c.lead, c.name + tail);
    assert "" + (c.name + tail) == c.name + tail;
    if c.args == [] {
      assert tail == c.pad && c.name + ("" + "") == c.name;
      StripRightPast(c.name, c.pad);
    } else {
      Regroup(c.name, c.pad, ArgsText(c.args));
      ArgsTrimmed(c.name + c.pad, c.args);
      Regroup(c.name, c.pad, ArgsText(Trimmed(c.args)));
    }
  }

  lemma {:induction false} NameLineTakes(n: string, y: string)
    requires forall i :: 0 <= i < |n| ==> n[i] != '<' && n[i] != '\n'
    ensures NameLine(n + y) == n + NameLine(y)
    decreases n
  {
    if n == "" {
      assert n + y == y && n + NameLine(y) == NameLine(y);
    } else {
      assert (n + y)[0] == n[0] && (n + y)[1..] == n[1..] + y;
      NameLineTakes(n[1..], y);
      Regroup([n[0]], n[1..], NameLine(y));
      assert [n[0]] + n[1..] == n;
    }
  }

  lemma {:induction false} NameLineOfPad(pad: string, y: string)
    requires AllSpace(pad) && (y == "" || y[0] == '<')
    ensures AllSpace(NameLine(pad + y))
    decreases pad
  {
    if pad == "" {
      assert pad + y == y;
    } else {
      assert (pad + y)[0] == pad[0] && (pad + y)[1..] == pad[1..] + y;
      NameLineOfPad(pad[1..], y);
    }
  }

  lemma ArgsStart(args: seq<Arg>)
    ensures TagNext(ArgsText(args))
  {
  }

  lemma NameFound(name: string, pad: string, args: seq<Arg>)
    requires IsName(name) && AllSpace(pad)
    ensures var t := name + (pad + ArgsText(args));
            NameLine(t) != "" && Strip(NameLine(t)) == name && !("{" <= t)
  {
    var t := name + (pad + ArgsText(args));
    var spaces := NameLine(pad + ArgsText(args));
    ArgsStart(args);
    NameLineTakes(name, pad + ArgsText(args));
    NameLineOfPad(pad, ArgsText(args));
    assert t[0] == name[0];
    assert (name + spaces)[0] == name[0];
    assert Strip(name + spaces) == StripRight(name + spaces);
    StripRightPast(name, spaces);
  }

  /** The call a rendered call stands for. */
  function Meaning(c: Call): ToolCall {
    ToolCall(c.name, ZipDict(Keys(c.args), Values(c.args)))
  }

  lemma CallParsed(decode: string -> Option<ToolCall>, c: Call)
    requires IsCall(c)
    ensures ParseInner(decode, InnerText(c)) == Some(Meaning(c))
  {
    var pad := if c.args == [] then "" else c.pad;
    var args := Trimmed(c.args);
    var front := c.name + pad;
    InnerStripped(c);
    TrimmedSame(c.args);
    NameFound(c.name, pad, args);
    SpaceHasNoTag(pad);
    Regroup(c.name, pad, ArgsText(args));
    SkipPlain(front, ArgsText(args), KeyOpen);
    InnersSkip(front, ArgsText(args), KeyOpen, KeyClose);
    KeysFound(args);
    SkipPlain(front, ArgsText(args), ValueOpen);
    InnersSkip(front, ArgsText(args), ValueOpen, ValueClose);
    ValuesFound(args);
  }

  // ------------------------------------------------------------------ whole texts

  function Calls(ps: seq<Piece>): seq<Call> {
    if ps == [] then []
    else (match ps[0] case Plain(_) => [] case Tool(call) => [call]) + Calls(ps[1..])
  }

  function Plains(ps: seq<Piece>): string {
    if ps == [] then ""
    else (match ps[0] case Plain(text) => text case Tool(_) => "") + Plains(ps[1..])
  }

  function InnerTexts(calls: seq<Call>): seq<string> {
    if calls == [] then [] else [InnerText(calls[0])] + InnerTexts(calls[1..])
  }

  lemma WithoutSkip(x: string, y: string, open: string, close: string)
    requires Clear(x, open) && IsTag(open) && TagNext(y)
    ensures Without(x + y, open, close) == x + Without(y, open, close)
  {
    SkipClear(x, y, open);
    if Split(y, open).Some? && Split(Split(y, open).value.1, close).Some? {
      Regroup(x, Split(y, open).value.0, Without(Split(Split(y, open).value.1, close).value.1, open, close));
    }
  }

  lemma CallFound(call: Call, rest: string)
    requires IsCall(call)
    ensures var text := CallOpen + (InnerText(call) + CallClose) + rest;
            && Inners(text, CallOpen, CallClose) == [InnerText(call)] + Inners(rest, CallOpen, CallClose)
            && Without(text, CallOpen, CallClose) == Without(rest, CallOpen, CallClose)
  {
    var inner := InnerText(call);
    InnerPassed(call, rest);
    InnersTake(CallOpen, inner, CallClose, rest);
    SplitHere(CallOpen, inner + (CallClose + rest));
    Regroup(inner, CallClose, rest);
    Regroup(CallOpen, inner + CallClose, rest);
    assert "" + Without(rest, CallOpen, CallClose) == Without(rest, CallOpen, CallClose);
  }

  lemma TextStarts(ps: seq<Piece>)
    requires ps == [] || ps[0].Tool?
    ensures TagNext(PiecesText(ps))
  {
  }

  lemma {:induction false} PiecesFound(ps: seq<Piece>)
    requires IsText(ps)
    ensures Inners(PiecesText(ps), CallOpen, CallClose) == InnerTexts(Calls(ps))
    ensures Without(PiecesText(ps), CallOpen, CallClose) == Plains(ps)
  {
    if ps != [] {
      var rest := PiecesText(ps[1..]);
      PiecesFound(ps[1..]);
      assert IsPiece(ps[0]);
      if ps[0].Plain? {
        var text := ps[0].text;
        TagsAreTags();
        TextStarts(ps[1..]);
        SkipClear(text, rest, CallOpen);
        InnersSkip(text, rest, CallOpen, CallClose);
        WithoutSkip(text, rest, CallOpen, CallClose);
        assert [] + Calls(ps[1..]) == Calls(ps[1..]);
      } else {
        CallFound(ps[0].call, rest);
        InnerTextsCons(ps[0].call, Calls(ps[1..]));
        assert "" + Plains(ps[1..]) == Plains(ps[1..]);
      }
    }
  }

  lemma InnerTextsCons(c: Call, calls: seq<Call>)
    ensures InnerTexts([c] + calls) == [InnerText(c)] + InnerTexts(calls)
  {
    assert ([c] + calls)[1..] == calls;
  }

  function Meanings(calls: seq<Call>): seq<ToolCall> {
    if calls == [] then [] else Meanings(calls[..|calls| - 1]) + [Meaning(calls[|calls| - 1])]
  }

  lemma {:induction false} InnerTextsSnoc(calls: seq<Call>, last: Call)
    ensures InnerTexts(calls + [last]) == InnerTexts(calls) + [InnerText(last)]
  {
    if calls == [] {
      assert calls + [last] == [last];
    } else {
      assert (calls + [last])[1..] == calls[1..] + [last];
      InnerTextsSnoc(calls[1..], last);
    }
  }

  lemma {:induction false} CallsParsed(decode: string -> Option<ToolCall>, calls: seq<Call>)
    requires forall c <- calls :: IsCall(c)
    ensures ParseInners(decode, InnerTexts(calls)) == Meanings(calls)
    decreases calls
  {
    if calls != [] {
      var n := |calls| - 1;
      AsSnoc(calls, n);
      InnerTextsSnoc(calls[..n], calls[n]);
      var before := InnerTexts(calls[..n]);
      assert (before + [InnerText(calls[n])])[..|before|] == before;
      CallsParsed(decode, calls[..n]);
      CallParsed(decode, calls[n]);
    }
  }

  /** Any text of plain segments and rendered calls: the parser yields the calls in order, each
      with its last value for every key, and the stripper the plain segments, trimmed. */
  lemma ParseInvertsFormat(decode: string -> Option<ToolCall>, ps: seq<Piece>)
    requires IsText(ps)
    ensures ParseInners(decode, Inners(PiecesText(ps), CallOpen, CallClose)) == Meanings(Calls(ps))
    ensures StripToolCalls(PiecesText(ps)) == Strip(Plains(ps))
  {
    PiecesFound(ps);
    CallsAreCalls(ps);
    CallsParsed(decode, Calls(ps));
  }

  lemma {:induction false} CallsAreCalls(ps: seq<Piece>)
    requires forall p <- ps :: IsPiece(p)
    ensures forall c <- Calls(ps) :: IsCall(c)
  {
    if ps != [] {
      CallsAreCalls(ps[1..]);
      assert IsPiece(ps[0]);
    }
  }

  lemma TagsWritten()
    ensures CallOpen == "<tool_call>" && CallClose == "</tool_call>"
    ensures KeyOpen == "<arg_key>" && KeyClose == "</arg_key>" && ValueOpen == "<arg_value>" && ValueClose == "</arg_value>"
  {
  }

  lemma ClearWithoutBracket(s: string, tag: string)
    requires NoTag(s) && IsTag(tag)
    ensures Clear(s, tag)
  {
    forall i | 0 <= i <= |s| ensures !(tag <= s[i..]) {
      if i < |s| { assert s[i..][0] == s[i]; }
    }
  }

  /** A call of one argument, with its tags written out, and text in front of it. */
  lemma OneCallParsed(decode: string -> Option<ToolCall>, before: string, name: string, key: string, value: string)
    requires NoTag(before) && IsName(name) && IsArg(Arg(key, "", value, ""))
    ensures var argument := ("<arg_key>" + key) + ("</arg_key>" + (("<arg_value>" + value) + "</arg_value>"));
            var text := before + ("<tool_call>" + ((name + argument) + "</tool_call>"));
            && ParseInners(decode, Inners(text, "<tool_call>", "</tool_call>")) == [ToolCall(name, map[key := value])]
            && StripToolCalls(text) == Strip(before)
  {
    var call := Call("", name, "", [Arg(key, "", value, "")]);
    var ps := [Plain(before), Tool(call)];
    TagsAreTags();
    ClearWithoutBracket(before, CallOpen);
    assert IsPiece(ps[0]) && IsPiece(ps[1]);
    OneCallText(before, name, key, value);
    OneCallMeans(before, name, key, value);
    ParseInvertsFormat(decode, ps);
  }

  lemma OneCallText(before: string, name: string, key: string, value: string)
    ensures var argument := ("<arg_key>" + key) + ("</arg_key>" + (("<arg_value>" + value) + "</arg_value>"));
            PiecesText([Plain(before), Tool(Call("", name, "", [Arg(key, "", value, "")]))])
            == before + ("<tool_call>" + ((name + argument) + "</tool_call>"))
  {
    var a := Arg(key, "", value, "");
    var call := Call("", name, "", [a]);
    var ps := [Plain(before), Tool(call)];
    NoMore(KeyClose);
    NoMore(ValueClose);
    assert ArgText(a) == (KeyOpen + key) + (KeyClose + ((ValueOpen + value) + ValueClose));
    NoMore(ArgText(a));
    assert [a][1..] == [] && ArgsText([a]) == ArgText(a);
    NoMore(name + ArgText(a));
    assert InnerText(call) == name + ArgText(a);
    assert ps[1..] == [Tool(call)] && ps[1..][1..] == [] && ps[0] == Plain(before) && ps[1..][0] == Tool(call);
    assert PiecesText(ps[1..][1..]) == "";
    assert PiecesText(ps[1..]) == (CallOpen + (InnerText(call) + CallClose)) + "";
    NoMore(CallOpen + (InnerText(call) + CallClose));
    assert PiecesText(ps) == before + PiecesText(ps[1..]);
  }

  lemma NoMore(s: string)
    ensures s + "" == s && "" + s == s
  {
  }

  lemma OneCallMeans(before: string, name: string, key: string, value: string)
    ensures var ps := [Plain(before), Tool(Call("", name, "", [Arg(key, "", value, "")]))];
            Meanings(Calls(ps)) == [ToolCall(name, map[key := value])] && Plains(ps) == before
  {
    var a := Arg(key, "", value, "");
    var call := Call("", name, "", [a]);
    var ps := [Plain(before), Tool(call)];
    assert ps[1..] == [Tool(call)] && ps[1..][1..] == [];
    assert Calls(ps[1..]) == [call] + [] && Calls(ps) == [] + [call];
    assert [call][..0] == [] && Meanings([call]) == [] + [Meaning(call)];
    NoMore(before);
    assert Plains(ps[1..]) == "" + "";
    assert [a][1..] == [] && Keys([a]) == [key] && Values([a]) == [value];
    assert [key][..0] == [] && [value][..0] == [] && ZipDict([], []) == map[];
  }

  /** Keys and values are paired up to the shorter list, and the last pair of a key counts. */
  lemma {:induction false} ZippedLastWins(keys: seq<string>, values: seq<string>, k: string)
    ensures var m := if |keys| < |values| then |keys| else |values|;
            var d := ZipDict(keys, values);
            && (k in d <==> exists i :: 0 <= i < m && keys[i] == k)
            && (k in d ==> exists i :: 0 <= i < m && keys[i] == k && d[k] == values[i] && forall j :: i < j < m ==> keys[j] != k)
    decreases |keys| + |values|
  {
    if keys != [] && values != [] {
      if |keys| > |values| {
        ZippedLastWins(keys[..|keys| - 1], values, k);
      } else if |keys| < |values| {
        ZippedLastWins(keys, values[..|values| - 1], k);
      } else {
        ZippedLastWins(keys[..|keys| - 1], values[..|values| - 1], k);
      }
    }
  }

  /** The inner text of a call, case by case: JSON if it starts like it and can be read, no call without
      a name, and otherwise a name up to the first tag or line end. */
  lemma InnerByCase(decode: string -> Option<ToolCall>, inner: string)
    ensures var t, r := Strip(inner), ParseInner(decode, inner);
            if t == "" then r == None
            else if t[0] == '{' && decode(t).Some? then r == decode(t)
            else if t[0] == '<' || t[0] == '\n' then r == None
            else r.Some? && exists n :: 0 < n <= |t| && NameEnds(t, n) && r.value.name == Strip(t[..n])
  {
    var t := Strip(inner);
    var n := NameLineIs(t);
    if t != "" && !(t[0] == '{' && decode(t).Some?) && t[0] != '<' && t[0] != '\n' { assert n > 0; }
  }

  /** The first n characters are neither a bracket nor a line end, and then one comes, or nothing. */
  predicate NameEnds(t: string, n: nat)
    requires n <= |t|
  {
    (forall i :: 0 <= i < n ==> t[i] != '<' && t[i] != '\n') && (n < |t| ==> t[n] == '<' || t[n] == '\n')
  }

  lemma {:induction false} NameLineIs(t: string) returns (n: nat)
    ensures n <= |t| && NameLine(t) == t[..n] && NameEnds(t, n)
    decreases t
  {
    n := 0;
    if t != "" && t[0] != '<' && t[0] != '\n' {
      var m := NameLineIs(t[1..]);
      n := m + 1;
      assert t[..n] == [t[0]] + t[1..][..m];
      assert forall i :: 1 <= i < n ==> t[i] == t[1..][i - 1];
    }
  }

  /** A key's argument is the value of its last occurrence. */
  lemma {:induction false} LastValueWins(args: seq<Arg>, i: nat)
    requires i < |args| && forall j :: i < j < |args| ==> args[j].key != args[i].key
    ensures var d := ZipDict(Keys(args), Values(args));
            args[i].key in d && d[args[i].key] == args[i].value
    decreases args
  {
    var n := |args| - 1;
    AsSnoc(args, n);
    KeysSnoc(args[..n], args[n]);
    if i < n {
      LastValueWins(args[..n], i);
    }
  }

  lemma {:induction false} KeysSnoc(args: seq<Arg>, last: Arg)
    ensures Keys(args + [last]) == Keys(args) + [last.key] && Values(args + [last]) == Values(args) + [last.value]
    ensures |Keys(args)| == |Values(args)| == |args|
    ensures var ks, vs := Keys(args + [last]), Values(args + [last]);
            ks[..|args|] == Keys(args) && vs[..|args|] == Values(args)
  {
    if args == [] {
      assert args + [last] == [last];
    } else {
      assert (args + [last])[1..] == args[1..] + [last];
      KeysSnoc(args[1..], last);
    }
  }
}
