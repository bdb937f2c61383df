/** The inline GLM-4.7 tool-call format (letta/adapters/sglang_native_adapter.py:181-220,
    262-263): the two regular expressions as searches, the parser and the stripper. */
module GlmFormat {
  import opened Wrappers
  import opened Sequences
  import opened PythonStrings

  // ------------------------------------------------------------------- searching

  /** The text around the first occurrence of a tag. */
  function Split(s: string, tag: string): Option<(string, string)>
    decreases s
  {
    if tag <= s then Some(("", s[|tag|..]))
    else if s == "" then None
    else match Split(s[1..], tag)
         case None => None
         case Some((before, after)) => Some(([s[0]] + before, after))
  }

  lemma {:induction false} SplitShape(s: string, tag: string)
    ensures var r := Split(s, tag);
            r.Some? ==> s == r.value.0 + tag + r.value.1
    decreases s
  {
    if tag <= s {
      assert "" + tag + s[|tag|..] == s;
    } else if s != "" {
      SplitShape(s[1..], tag);
      if Split(s, tag).Some? {
        var (before, after) := Split(s[1..], tag).value;
        Regroup([s[0]], before, tag);
        Regroup([s[0]], before + tag, after);
        assert s == [s[0]] + s[1..];
      }
    }
  }

  /** re.findall of open(.*?)close: the shortest inner texts, left to right. */
  function Inners(s: string, open: string, close: string): seq<string>
    requires open != ""
    decreases |s|
  {
    match Split(s, open)
    case None => []
    case Some((_, rest)) =>
      match Split(rest, close)
      case None => []
      case Some((inner, after)) =>
        SplitShape(s, open); SplitShape(rest, close);
        [inner] + Inners(after, open, close)
  }

  /** re.sub of open.*?close by nothing. */
  function Without(s: string, open: string, close: string): string
    requires open != ""
    decreases |s|
  {
    match Split(s, open)
    case None => s
    case Some((before, rest)) =>
      match Split(rest, close)
      case None => s
      case Some((_, after)) =>
        SplitShape(s, open); SplitShape(rest, close);
        before + Without(after, open, close)
  }

  // --------------------------------------------------------------------- parsing

  datatype ToolCall = ToolCall(name: string, arguments: map<string, string>)

  /** re.match of [^<\n]+ at the start. */
  function NameLine(s: string): string
    decreases s
  {
    if s == "" || s[0] == '<' || s[0] == '\n' then "" else [s[0]] + NameLine(s[1..])
  }

  /** dict(zip(keys, values)): the shorter list decides, later keys win. */
  function ZipDict(keys: seq<string>, values: seq<string>): map<string, string>
    decreases |keys| + |values|
  {
    if keys == [] || values == [] then map[]
    else if |keys| > |values| then ZipDict(keys[..|keys| - 1], values)
    else if |keys| < |values| then ZipDict(keys, values[..|values| - 1])
    else ZipDict(keys[..|keys| - 1], values[..|values| - 1])[keys[|keys| - 1] := values[|values| - 1]]
  }

  const CallOpen := "<tool_call>"
  const CallClose := "</tool_call>"
  const KeyOpen := "<arg_key>"
  const KeyClose := "</arg_key>"
  const ValueOpen := "<arg_value>"
  const ValueClose := "</arg_value>"

  /** One call from the text between its tags; decode is the JSON fallback. */
  function ParseInner(decode: string -> Option<ToolCall>, inner: string): Option<ToolCall> {
    var t := Strip(inner);
    if "{" <= t && decode(t).Some? then decode(t)
    else
      var name := NameLine(t);
      if name == "" then None
      else Some(ToolCall(Strip(name), ZipDict(Inners(t, KeyOpen, KeyClose), Inners(t, ValueOpen, ValueClose))))
  }

  function ParseInners(decode: string -> Option<ToolCall>, inners: seq<string>): seq<ToolCall> {
    if inners == [] then []
    else
      var last := ParseInner(decode, inners[|inners| - 1]);
      ParseInners(decode, inners[..|inners| - 1]) + (if last.Some? then [last.value] else [])
  }

  method ParseGlm47ToolCalls(decode: string -> Option<ToolCall>, text: string) returns (toolCalls: seq<ToolCall>)
    ensures toolCalls == ParseInners(decode, Inners(text, CallOpen, CallClose))
  {
    toolCalls := [];
    var inners := Inners(text, CallOpen, CallClose);
    for i := 0 to |inners|
      invariant toolCalls == ParseInners(decode, inners[..i])
    {
      assert inners[..i + 1][..i] == inners[..i];
      var inner := Strip(inners[i]);
      if "{" <= inner {
        var decoded := decode(inner);
        if decoded.Some? {
          toolCalls := toolCalls + [decoded.value];
          continue;
        }
      }
      var name := NameLine(inner);
      if name == "" {
        assert toolCalls + [] == toolCalls;
        continue;
      }
      var keys := Inners(inner, KeyOpen, KeyClose);
      var values := Inners(inner, ValueOpen, ValueClose);
      toolCalls := toolCalls + [ToolCall(Strip(name), ZipDict(keys, values))];
    }
    assert inners[..|inners|] == inners;
  }

  function StripToolCalls(text: string): string {
    Strip(Without(text, CallOpen, CallClose))
  }
}
