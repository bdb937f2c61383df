/** What chunks behind a message let out (letta/streaming_utils.py:265-344). */
module MessageLater {
  import opened Wrappers
  import opened Sequences
  import opened PythonStrings
  import opened MessageStream
  import opened MessageReading
  import opened MessageDelivery
  import opened MessageCuts

  /** Taken for the colon chunk, the chunk opens a string as well. */
  predicate OpensString(chunk: string) {
    && ':' in Strip(chunk)
    && var value := After(chunk, ':'); value.Some? && '"' in value.value
  }

  /** What chunks behind a message come to first: an output, a brace outside of strings, which
      forgets the key, or nothing at all. */
  datatype Fate = Quiet | Forgets(at: nat) | Speaks(at: nat)
  {
    function Later(): Fate {
      match this case Quiet => Quiet case Forgets(at) => Forgets(at + 1) case Speaks(at) => Speaks(at + 1)
    }
  }

  /** Read from the chunks alone.  Behind a colon the first lone quote opens a string, and any
      chunk but another lone quote speaks. */
  function FateOf(chunks: seq<string>, behindColon: bool): Fate
    decreases |chunks|
  {
    if chunks == [] then Quiet
    else
      var clean, rest := Strip(chunks[0]), chunks[1..];
      if clean == "}" || (clean == "{" && !behindColon) then Forgets(0)
      else if !behindColon then
        if OpensString(chunks[0]) then Speaks(0) else FateOf(rest, ':' in clean).Later()
      else if clean != "\"" then FateOf(rest, true).Later()
      else if rest == [] then Quiet
      else if Strip(rest[0]) == "\"" then FateOf(rest[1..], false).Later().Later()
      else Speaks(1)
  }

  function OutputAt(key: string, h: Handler, chunks: seq<string>, i: nat): Option<string>
    requires i < |chunks|
  {
    Process(key, Feed(key, h, chunks[..i]).0, chunks[i]).1
  }

  /** At this chunk the handler meets a brace that clears its key buffer. */
  predicate ForgetsAt(key: string, h: Handler, chunks: seq<string>, i: nat)
    requires i < |chunks|
  {
    var now := Feed(key, h, chunks[..i]).0;
    (Strip(chunks[i]) == "{" && !now.inMessage) || (Strip(chunks[i]) == "}" && !now.messageStarted)
  }

  /** Nothing goes out, and the key is kept. */
  predicate StillAt(key: string, h: Handler, chunks: seq<string>, i: nat)
    requires i < |chunks|
  {
    OutputAt(key, h, chunks, i) == None && !ForgetsAt(key, h, chunks, i)
  }

  lemma Onward(key: string, h: Handler, chunks: seq<string>, i: nat)
    requires 0 < i < |chunks|
    ensures var g, rest := Process(key, h, chunks[0]).0, chunks[1..];
            && OutputAt(key, h, chunks, i) == OutputAt(key, g, rest, i - 1)
            && (ForgetsAt(key, h, chunks, i) <==> ForgetsAt(key, g, rest, i - 1))
  {
    assert chunks[..i][1..] == chunks[1..][..i - 1] && chunks[..i][0] == chunks[0];
  }

  ghost predicate Told(key: string, h: Handler, chunks: seq<string>, fate: Fate) {
    match fate
    case Quiet => forall i :: 0 <= i < |chunks| ==> StillAt(key, h, chunks, i)
    case Forgets(n) =>
      && n < |chunks| && (forall i :: 0 <= i < n ==> StillAt(key, h, chunks, i))
      && OutputAt(key, h, chunks, n) == None && ForgetsAt(key, h, chunks, n)
    case Speaks(n) =>
      && n < |chunks| && (forall i :: 0 <= i < n ==> StillAt(key, h, chunks, i))
      && OutputAt(key, h, chunks, n).Some? && !ForgetsAt(key, h, chunks, n)
  }

  lemma StillLater(key: string, h: Handler, chunks: seq<string>, n: nat)
    requires n < |chunks| && StillAt(key, h, chunks, 0)
    requires var g, rest := Process(key, h, chunks[0]).0, chunks[1..]; forall i :: 0 <= i < n ==> StillAt(key, g, rest, i)
    ensures forall i :: 0 <= i < n + 1 ==> StillAt(key, h, chunks, i)
  {
    forall i | 0 < i < n + 1 ensures StillAt(key, h, chunks, i) {
      assert StillAt(key, Process(key, h, chunks[0]).0, chunks[1..], i - 1);
      Onward(key, h, chunks, i);
    }
  }

  /** A still first chunk puts off what the rest comes to. */
  lemma ToldLater(key: string, h: Handler, chunks: seq<string>, fate: Fate)
    requires chunks != [] && StillAt(key, h, chunks, 0)
    requires Told(key, Process(key, h, chunks[0]).0, chunks[1..], fate)
    ensures Told(key, h, chunks, fate.Later())
  {
    StillLater(key, h, chunks, if fate.Quiet? then |chunks| - 1 else fate.at);
    if !fate.Quiet? { Onward(key, h, chunks, fate.at + 1); }
  }

  lemma KeyStays(h: Handler, key: string, more: string)
    requires Contains(h.keyBuffer, key)
    ensures Contains(h.keyBuffer + more, key)
  {
    var i :| 0 <= i <= |h.keyBuffer| && key <= h.keyBuffer[i..];
    assert (h.keyBuffer + more)[i..] == h.keyBuffer[i..] + more;
  }

  /** With the key in the buffer a chunk speaks exactly when it opens a string. */
  lemma ChunkSpeaksExactly(key: string, h: Handler, chunk: string)
    requires !h.inMessage && Contains(h.keyBuffer, key)
    ensures Process(key, h, chunk).1.Some? <==> Strip(chunk) != "{" && OpensString(chunk)
  {
    KeyStays(h, key, Strip(chunk));
    var value := After(chunk, ':');
    if value.Some? { AfterIsSuffix(value.value, '"'); }
  }

  /** Before a string is open: one chunk, by what it is to the handler. */
  lemma StillChunk(key: string, h: Handler, chunks: seq<string>)
    requires chunks != [] && Contains(h.keyBuffer, key) && !h.messageStarted
    requires Strip(chunks[0]) != "}"
    requires if h.inMessage then Strip(chunks[0]) != "\"" else Strip(chunks[0]) != "{" && !OpensString(chunks[0])
    ensures StillAt(key, h, chunks, 0)
    ensures var g := Process(key, h, chunks[0]).0;
            && Contains(g.keyBuffer, key) && !g.messageStarted
            && (g.inMessage <==> h.inMessage || ':' in Strip(chunks[0]))
  {
    assert chunks[..0] == [];
    KeyStays(h, key, Strip(chunks[0]));
    var value := After(chunks[0], ':');
    if value.Some? { AfterIsSuffix(value.value, '"'); }
  }

  lemma QuotedTold(key: string, h: Handler, chunks: seq<string>)
    requires chunks != [] && h.inMessage && !h.messageStarted && Strip(chunks[0]) == "\""
    ensures StillAt(key, h, chunks, 0)
    ensures |chunks| == 1 ==> Told(key, h, chunks, Quiet)
    ensures |chunks| > 1 && Strip(chunks[1]) != "\"" ==> Told(key, h, chunks, Speaks(1))
    ensures |chunks| > 1 && Strip(chunks[1]) == "\"" ==>
      StillAt(key, Process(key, h, chunks[0]).0, chunks[1..], 0)
      && Process(key, Process(key, h, chunks[0]).0, chunks[1]).0 == Closed(h)
  {
    assert chunks[..0] == [];
    if |chunks| > 1 {
      Onward(key, h, chunks, 1);
      assert chunks[1..][..0] == [];
    }
  }

  /** Behind a message, or behind a later member's colon, the handler does what the chunks'
      fate says, whatever came before and whatever the key. */
  lemma {:induction false} FateTold(key: string, h: Handler, chunks: seq<string>)
    requires Contains(h.keyBuffer, key) && !h.messageStarted
    ensures Told(key, h, chunks, FateOf(chunks, h.inMessage))
    decreases |chunks|
  {
    if chunks != [] {
      var clean, rest, g := Strip(chunks[0]), chunks[1..], Process(key, h, chunks[0]).0;
      assert chunks[..0] == [];
      if clean == "}" || (clean == "{" && !h.inMessage) {
        StripKeeps("}");
      } else if h.inMessage && clean == "\"" {
        QuotedTold(key, h, chunks);
        if rest != [] && Strip(rest[0]) == "\"" {
          FateTold(key, Closed(h), rest[1..]);
          ToldLater(key, g, rest, FateOf(rest[1..], false));
          ToldLater(key, h, chunks, FateOf(rest[1..], false).Later());
        }
      } else if !h.inMessage && OpensString(chunks[0]) {
        ChunkSpeaksExactly(key, h, chunks[0]);
      } else {
        StillChunk(key, h, chunks);
        FateTold(key, g, rest);
        ToldLater(key, h, chunks, FateOf(rest, g.inMessage));
      }
    }
  }

  lemma SpeaksExactly(key: string, h: Handler, chunks: seq<string>, fate: Fate)
    requires Told(key, h, chunks, fate)
    ensures fate.Speaks? <==>
      exists n :: 0 <= n < |chunks| && OutputAt(key, h, chunks, n).Some? && forall i :: 0 <= i <= n ==> !ForgetsAt(key, h, chunks, i)
  {
    if n :| 0 <= n < |chunks| && OutputAt(key, h, chunks, n).Some? && forall i :: 0 <= i <= n ==> !ForgetsAt(key, h, chunks, i) {
      assert !StillAt(key, h, chunks, n);
    }
    if fate.Speaks? {
      forall i | 0 <= i <= fate.at ensures !ForgetsAt(key, h, chunks, i) {
        if i < fate.at { assert StillAt(key, h, chunks, i); }
      }
    }
  }

  /** After a message that came through, a later member's text goes out as well, before a brace
      ends the object, if and only if one of the chunks opens a string that speaks. */
  lemma LaterMemberLeaks(key: string, h: Handler, m: Message, later: seq<string>)
    requires m.Valid() && Hears(key, h, m) && m.Closes()
    ensures var g := Feed(key, h, m.Chunks()).0;
            FateOf(later, false).Speaks? <==>
              exists n :: 0 <= n < |later| && OutputAt(key, g, later, n).Some? && forall i :: 0 <= i <= n ==> !ForgetsAt(key, g, later, i)
  {
    MessageDelivered(key, h, m);
    var g := EndState(h, m);
    FateTold(key, g, later);
    SpeaksExactly(key, g, later, FateOf(later, false));
  }

  /** The rest of an object with a second member. */
  const SecondMember := [",", "\"other\"", ":", "\"", "x", "\"", "}"]

  /** The message `hi`, its closing quote in a chunk of its own. */
  const Hi := InChunks(Plainly, "", ["hi"], Ending("", ""))

  /** A second member's string goes out behind the message. */
  lemma SecondMemberLeaks()
    ensures OutOf(Hi) == "hi"
    ensures var g := Feed("message", Reset, ["{", "\"message\""] + Hi.Chunks()).0;
            exists n :: 0 <= n < |SecondMember| && OutputAt("message", g, SecondMember, n).Some?
  {
    var head := ["{", "\"message\""];
    HiIntact("");
    PlainlyDelivered(Hi);
    MessageFound(Hi);
    HeadPassed("message", head, Hi.Chunks());
    SecondMemberSpeaks();
    LaterMemberLeaks("message", Feed("message", Reset, head).0, Hi, SecondMember);
  }

  /** A colon, a quote and a first chunk, each by itself. */
  lemma StringSpeaks(first: string, rest: seq<string>)
    requires Strip(first) != "\""
    ensures FateOf([":", "\"", first] + rest, false) == Speaks(2)
  {
    var chunks := [":", "\"", first] + rest;
    PlainlyValid();
    StripKeeps("\"");
    assert chunks[1..] == ["\"", first] + rest && chunks[1..][1..] == [first] + rest;
    assert FateOf(chunks[1..], true) == Speaks(1);
  }

  lemma KeyChunkIsQuiet(chunk: string, rest: seq<string>)
    requires Strip(chunk) != "{" && Strip(chunk) != "}" && ':' !in Strip(chunk)
    ensures FateOf([chunk] + rest, false) == FateOf(rest, false).Later()
  {
    assert ([chunk] + rest)[1..] == rest;
  }

  lemma SecondMemberSpeaks()
    ensures FateOf(SecondMember, false) == Speaks(4)
  {
    var member := [":", "\"", "x"] + ["\"", "}"];
    StripKeeps(",");
    StripKeeps("\"other\"");
    StripKeeps("x");
    StringSpeaks("x", ["\"", "}"]);
    KeyChunkIsQuiet("\"other\"", member);
    KeyChunkIsQuiet(",", ["\"other\""] + member);
    assert SecondMember == [","] + (["\"other\""] + member);
  }
}
