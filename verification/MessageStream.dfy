/** FunctionArgumentsStreamHandler (letta/streaming_utils.py:252-344): the token machine that
    picks one string argument out of streamed function arguments. */
module MessageStream {
  import opened Wrappers
  import opened Sequences
  import opened PythonStrings

  // ---------------------------------------------------------------- string helpers

  /** What the backward scans skip. */
  predicate IsBlank(c: char) { c == ' ' || c == '\t' || c == '\r' || c == '\n' }

  function TrimBlanks(s: string): string
    decreases s
  {
    if s != "" && IsBlank(s[|s| - 1]) then TrimBlanks(s[..|s| - 1]) else s
  }

  predicate Contains(text: string, part: string) {
    exists i :: 0 <= i <= |text| && part <= text[i..]
  }

  /** str.find for one character. */
  function Find(s: string, c: char, from: nat): (r: Option<nat>)
    requires from <= |s|
    ensures r.None? <==> forall j :: from <= j < |s| ==> s[j] != c
    ensures r.Some? ==> from <= r.value < |s| && s[r.value] == c && forall j :: from <= j < r.value ==> s[j] != c
    decreases |s| - from
  {
    if from == |s| then None else if s[from] == c then Some(from) else Find(s, c, from + 1)
  }

  /** The text behind the first occurrence of a character. */
  function After(s: string, c: char): Option<string>
    decreases s
  {
    if s == "" then None else if s[0] == c then Some(s[1..]) else After(s[1..], c)
  }

  lemma {:induction false} FindIsAfter(s: string, c: char, from: nat)
    requires from <= |s|
    ensures var r := Find(s, c, from);
            After(s[from..], c) == if r.Some? then Some(s[r.value + 1..]) else None
    decreases |s| - from
  {
    if from < |s| && s[from] != c {
      FindIsAfter(s, c, from + 1);
      assert s[from..][1..] == s[from + 1..];
    }
  }

  lemma {:induction false} AfterSkips(skipped: string, c: char, rest: string)
    requires forall j :: 0 <= j < |skipped| ==> skipped[j] != c
    ensures After(skipped + ([c] + rest), c) == Some(rest)
    decreases skipped
  {
    var s := skipped + ([c] + rest);
    if skipped == "" {
      assert s[0] == c && s[1..] == rest;
    } else {
      assert s[0] == skipped[0] && s[1..] == skipped[1..] + ([c] + rest);
      AfterSkips(skipped[1..], c, rest);
    }
  }

  lemma {:induction false} AfterIsSuffix(s: string, c: char)
    ensures var r := After(s, c);
            r.Some? ==> |r.value| < |s| && s[|s| - |r.value|..] == r.value
    ensures After(s, c).Some? <==> c in s
    decreases s
  {
    if s != "" && s[0] != c {
      AfterIsSuffix(s[1..], c);
      assert s == [s[0]] + s[1..];
    }
  }

  predicate IsDelimiter(c: char) { c == ',' || c == '}' || c == ']' }

  /** The content before a terminating quote (and delimiter, and blanks), if the text ends so. */
  function Closing(text: string): Option<string> {
    var t := TrimBlanks(text);
    var n := |t|;
    if n >= 2 && t[n - 2] == '"' && IsDelimiter(t[n - 1]) then Some(t[..n - 2])
    else if n >= 1 && t[n - 1] == '"' then Some(t[..n - 1])
    else None
  }

  // ------------------------------------------------------------------- the machine

  datatype Handler = Handler(inMessage: bool, keyBuffer: string, accumulating: bool, messageStarted: bool)

  const Reset := Handler(false, "", false, false)

  function Closed(h: Handler): Handler { h.(inMessage := false, messageStarted := false) }

  /** A chunk of the open message: content, or content and the end. */
  function Content(h: Handler, text: string): (Handler, Option<string>) {
    match Closing(text)
    case Some(out) => (Closed(h), Some(out))
    case None => (h, Some(text))
  }

  function EnterWith(h: Handler, chunk: string): (Handler, Option<string>) {
    var entered := h.(inMessage := true, accumulating := false);
    match After(chunk, ':')
    case None => (entered, None)
    case Some(value) =>
      match After(value, '"')
      case None => (entered, None)
      case Some(content) => Content(entered.(messageStarted := true), content)
  }

  function BeforeMessage(key: string, h: Handler, chunk: string): (Handler, Option<string>) {
    var clean := Strip(chunk);
    var g := h.(keyBuffer := h.keyBuffer + clean);
    if clean == "{" then (h.(keyBuffer := "", accumulating := true), None)
    else if Contains(g.keyBuffer, key) && ':' in clean then EnterWith(g, chunk)
    else if clean == "}" then (Closed(g).(keyBuffer := ""), None)
    else (g, None)
  }

  function InMessage(h: Handler, chunk: string): (Handler, Option<string>) {
    var clean := Strip(chunk);
    if clean == "\"" then
      if h.messageStarted then (Closed(h), None) else (h.(messageStarted := true), None)
    else if h.messageStarted then Content(h, chunk)
    else if clean == "}" then (Closed(h).(keyBuffer := ""), None)
    else (h, None)
  }

  function Process(key: string, h: Handler, chunk: string): (Handler, Option<string>) {
    if h.inMessage then InMessage(h, chunk) else BeforeMessage(key, h, chunk)
  }

  // --------------------------------------------------------------------- the class

  class FunctionArgumentsStreamHandler {
    const jsonKey: string
    var inMessage: bool
    var keyBuffer: string
    var accumulating: bool
    var messageStarted: bool

    function Abs(): Handler
      reads this
    {
      Handler(inMessage, keyBuffer, accumulating, messageStarted)
    }

    constructor (jsonKey: string)
      ensures this.jsonKey == jsonKey && Abs() == Reset
    {
      this.jsonKey := jsonKey;
      inMessage, keyBuffer, accumulating, messageStarted := false, "", false, false;
    }

    method ResetState()
      modifies this
      ensures Abs() == Reset
    {
      inMessage := false;
      keyBuffer := "";
      accumulating := false;
      messageStarted := false;
    }

    /** The two closing tests on the tail of a text, after the backward scan over blanks. */
    method CloseOrContinue(text: string) returns (out: string)
      requires inMessage && messageStarted
      modifies this`inMessage, this`messageStarted
      ensures (Abs(), Some(out)) == Content(old(Abs()), text)
    {
      var i := |text| - 1;
      assert text[..i + 1] == text;
      while i >= 0 && IsBlank(text[i])
        invariant -1 <= i < |text|
        invariant TrimBlanks(text) == TrimBlanks(text[..i + 1])
      {
        assert text[..i + 1][..i] == text[..i];
        i := i - 1;
      }
      assert TrimBlanks(text) == text[..i + 1];
      if i >= 1 && text[i - 1] == '"' && IsDelimiter(text[i]) {
        out := text[..i - 1];
        assert text[..i + 1][..i - 1] == out;
        inMessage := false;
        messageStarted := false;
      } else if i >= 0 && text[i] == '"' {
        out := text[..i];
        assert text[..i + 1][..i] == out;
        inMessage := false;
        messageStarted := false;
      } else {
        out := text;
      }
    }

    /** The colon chunk: enter value mode and hand out content that is already there. */
    method EnterMessage(chunk: string) returns (out: Option<string>)
      requires !inMessage
      modifies this
      ensures (Abs(), out) == EnterWith(old(Abs()), chunk)
    {
      inMessage := true;
      accumulating := false;
      out := None;
      var colon := Find(chunk, ':', 0);
      FindIsAfter(chunk, ':', 0);
      assert chunk[0..] == chunk;
      if colon.Some? {
        var quote := Find(chunk, '"', colon.value + 1);
        FindIsAfter(chunk, '"', colon.value + 1);
        if quote.Some? {
          messageStarted := true;
          var content := CloseOrContinue(chunk[quote.value + 1..]);
          out := Some(content);
        }
      }
    }

    method ProcessJsonChunk(chunk: string) returns (out: Option<string>)
      modifies this
      ensures (Abs(), out) == Process(jsonKey, old(Abs()), chunk)
    {
      var cleanChunk := Strip(chunk);
      out := None;
      if !inMessage {
        if cleanChunk == "{" {
          keyBuffer := "";
          accumulating := true;
          return;
        }
        keyBuffer := keyBuffer + cleanChunk;
        if Contains(keyBuffer, jsonKey) && ':' in cleanChunk {
          out := EnterMessage(chunk);
          return;
        }
        if cleanChunk == "}" {
          inMessage := false;
          messageStarted := false;
          keyBuffer := "";
        }
        return;
      }
      if cleanChunk == "\"" && messageStarted {
        inMessage := false;
        messageStarted := false;
        return;
      }
      if !messageStarted && cleanChunk == "\"" {
        messageStarted := true;
        return;
      }
      if messageStarted {
        var content := CloseOrContinue(chunk);
        out := Some(content);
        return;
      }
      if cleanChunk == "}" {
        inMessage := false;
        messageStarted := false;
        keyBuffer := "";
      }
    }
  }

  // ------------------------------------------------------- on all chunks whatsoever

  /** A started message is an open one, and what comes out was in the chunk. */
  lemma ProcessSafe(key: string, h: Handler, chunk: string)
    requires h.messageStarted ==> h.inMessage
    ensures var (g, out) := Process(key, h, chunk);
            && (g.messageStarted ==> g.inMessage)
            && (out.Some? ==> Contains(chunk, out.value))
  {
    if h.inMessage {
      ContentIsPart(h, chunk, 0);
      assert chunk[0..] == chunk;
    } else {
      BeforeMessageSafe(key, h, chunk);
    }
  }

  lemma BeforeMessageSafe(key: string, h: Handler, chunk: string)
    requires !h.messageStarted
    ensures var (g, out) := BeforeMessage(key, h, chunk);
            && (g.messageStarted ==> g.inMessage)
            && (out.Some? ==> Contains(chunk, out.value))
  {
    if After(chunk, ':').Some? && After(After(chunk, ':').value, '"').Some? {
      var from := AfterTwice(chunk, ':', '"');
      var g := h.(keyBuffer := h.keyBuffer + Strip(chunk), inMessage := true, accumulating := false, messageStarted := true);
      ContentIsPart(g, chunk, from);
    }
  }

  lemma AfterTwice(s: string, c: char, d: char) returns (from: nat)
    requires After(s, c).Some? && After(After(s, c).value, d).Some?
    ensures from <= |s| && s[from..] == After(After(s, c).value, d).value
  {
    var value := After(s, c).value;
    AfterIsSuffix(s, c);
    AfterIsSuffix(value, d);
    from := |s| - |After(value, d).value|;
    assert s[from..] == value[|value| - |After(value, d).value|..];
  }

  lemma ContentIsPart(h: Handler, chunk: string, from: nat)
    requires from <= |chunk|
    ensures var out := Content(h, chunk[from..]).1;
            out.Some? && Contains(chunk, out.value)
  {
    var rest := chunk[from..];
    TrimIsPrefix(rest);
    assert Content(h, rest).1.value <= rest;
  }

  lemma {:induction false} TrimIsPrefix(text: string)
    ensures TrimBlanks(text) <= text
    decreases text
  {
    if text != "" && IsBlank(text[|text| - 1]) {
      TrimIsPrefix(text[..|text| - 1]);
    }
  }

  // ----------------------------------------------------------------- many chunks

  function Feed(key: string, h: Handler, chunks: seq<string>): (Handler, string)
    decreases chunks
  {
    if chunks == [] then (h, "")
    else
      var (g, out) := Process(key, h, chunks[0]);
      var (end, rest) := Feed(key, g, chunks[1..]);
      (end, (if out.Some? then out.value else "") + rest)
  }

  lemma {:induction false} FeedAppend(key: string, h: Handler, a: seq<string>, b: seq<string>)
    ensures var (g, out) := Feed(key, h, a);
            var (end, rest) := Feed(key, g, b);
            Feed(key, h, a + b) == (end, out + rest)
    decreases a
  {
    if a == [] {
      assert a + b == b;
      assert "" + Feed(key, h, b).1 == Feed(key, h, b).1;
    } else {
      assert (a + b)[1..] == a[1..] + b;
      var (g, out) := Process(key, h, a[0]);
      FeedAppend(key, g, a[1..], b);
      var (m, first) := Feed(key, g, a[1..]);
      Regroup(if out.Some? then out.value else "", first, Feed(key, m, b).1);
    }
  }

  function Handed(out: Option<string>): string { if out.Some? then out.value else "" }

  lemma OneChunk(key: string, h: Handler, chunk: string)
    ensures var (g, out) := Process(key, h, chunk);
            Feed(key, h, [chunk]) == (g, Handed(out))
  {
    assert [chunk][1..] == [];
    var out := Process(key, h, chunk).1;
    assert Handed(out) + "" == Handed(out);
  }

  // ---------------------------------------------------------------------- by case

  /** A chunk outside of a message. */
  lemma OutsideByCase(key: string, h: Handler, chunk: string)
    requires !h.inMessage
    ensures var (g, out) := Process(key, h, chunk); var clean := Strip(chunk);
            var heard := clean != "{" && ':' in clean && Contains(h.keyBuffer + clean, key);
            && (clean == "{" ==> g == h.(keyBuffer := "", accumulating := true) && out == None)
            && (clean == "}" ==> !g.inMessage && !g.messageStarted && g.keyBuffer == "" && g.accumulating == h.accumulating && out == None)
            && (clean != "{" && clean != "}" && !heard ==> g == h.(keyBuffer := h.keyBuffer + clean) && out == None)
            && (heard ==> g.keyBuffer == h.keyBuffer + clean && !g.accumulating)
            && (out.Some? ==> heard)
  {
  }

  /** A chunk inside of a message, before its quote, and behind it. */
  lemma InsideByCase(key: string, h: Handler, chunk: string)
    requires h.inMessage
    ensures var (g, out) := Process(key, h, chunk); var clean := Strip(chunk);
            && g.keyBuffer == (if clean == "}" && !h.messageStarted then "" else h.keyBuffer) && g.accumulating == h.accumulating
            && (clean == "\"" ==> out == None && (if h.messageStarted then !g.inMessage && !g.messageStarted else g.inMessage && g.messageStarted))
            && (clean != "\"" && !h.messageStarted ==> out == None && !g.messageStarted && (g.inMessage <==> clean != "}"))
            && (clean != "\"" && h.messageStarted ==> out.Some? && g.messageStarted == g.inMessage)
  {
  }
}
