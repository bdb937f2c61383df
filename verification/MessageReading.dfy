/** How a message is cut into chunks, and what the handler makes of each kind of them
    (letta/streaming_utils.py:265-344). */
module MessageReading {
  import opened Wrappers
  import opened Sequences
  import opened PythonStrings
  import opened MessageStream

  // ------------------------------------------------------------- before the message

  function BufferThen(buffer: string, chunk: string): string {
    if Strip(chunk) == "{" || Strip(chunk) == "}" then "" else buffer + Strip(chunk)
  }

  /** The key buffer after some chunks outside of strings; a lone brace clears it. */
  function BufferAfter(buffer: string, head: seq<string>): string
    decreases head
  {
    if head == [] then buffer else BufferAfter(BufferThen(buffer, head[0]), head[1..])
  }

  /** Chunks on the way to the key's colon: whatever colons they hold, the key is not in the
      buffer then. */
  predicate IsHead(key: string, buffer: string, head: seq<string>)
    decreases head
  {
    head == [] ||
    (&& (Strip(head[0]) == "{" || Strip(head[0]) == "}" || ':' !in Strip(head[0]) || !Contains(buffer + Strip(head[0]), key))
     && IsHead(key, BufferThen(buffer, head[0]), head[1..]))
  }

  lemma {:induction false} HeadRead(key: string, h: Handler, head: seq<string>)
    requires !h.inMessage && !h.messageStarted && IsHead(key, h.keyBuffer, head)
    ensures var (g, out) := Feed(key, h, head);
            out == "" && g.(accumulating := false) == Handler(false, BufferAfter(h.keyBuffer, head), false, false)
    decreases head
  {
    if head != [] {
      HeadRead(key, Process(key, h, head[0]).0, head[1..]);
      assert "" + "" == "";
    }
  }

  /** Behind a head the handler waits for the key, and nothing has come out. */
  lemma HeadPassed(key: string, head: seq<string>, more: seq<string>)
    requires IsHead(key, "", head)
    ensures var h := Feed(key, Reset, head).0;
            && !h.inMessage && !h.messageStarted && h.keyBuffer == BufferAfter("", head)
            && Feed(key, Reset, head + more) == Feed(key, h, more)
  {
    var h := Feed(key, Reset, head).0;
    HeadRead(key, Reset, head);
    FeedAppend(key, Reset, head, more);
    assert "" + Feed(key, h, more).1 == Feed(key, h, more).1;
  }

  // ------------------------------------------------------------------- the opening

  /** Every quote is escaped, as inside a JSON string (section 7 of RFC 8259). */
  predicate Escaped(text: string) {
    forall i :: 0 <= i < |text| && text[i] == '"' ==> i > 0 && text[i - 1] == '\\'
  }

  /** How the opening quote arrives: behind the colon in its chunk, or in a later chunk, after
      white ones. */
  datatype Opening =
    | Inline(before: string, gap: string)
    | Bare(colonChunk: string, whites: seq<string>, lead: string)
  {
    /** The chunk with the colon; `first` is what follows the quote in the quote's chunk. */
    function ColonChunk(first: string): string {
      match this
      case Inline(before, gap) => before + (":" + (gap + ("\"" + first)))
      case Bare(colonChunk, _, _) => colonChunk
    }

    function Chunks(first: string): seq<string> {
      match this
      case Inline(_, _) => [ColonChunk(first)]
      case Bare(colonChunk, whites, lead) => [colonChunk] + (whites + [lead + ("\"" + first)])
    }

    predicate Valid() {
      match this
      case Inline(before, gap) => ':' !in before && '"' !in gap
      case Bare(colonChunk, whites, lead) =>
        && ':' in colonChunk
        && (match After(colonChunk, ':') case None => false case Some(value) => '"' !in value)
        && (forall w <- whites :: AllSpace(w)) && AllSpace(lead)
    }

    /** The text behind the quote comes through: it does not end like a terminator, or there is
        none in the chunk of a quote that was not in the colon's chunk. */
    predicate Takes(first: string) {
      match this
      case Inline(_, _) => Closing(first) == None
      case Bare(_, _, _) => first == ""
    }
  }

  function Entered(buffer: string, colonChunk: string): Handler {
    Handler(true, buffer + Strip(colonChunk), false, true)
  }

  /** What an opening leads to. */
  function OpenedBy(opening: Opening, buffer: string, first: string): (Handler, string) {
    var g := Entered(buffer, opening.ColonChunk(first));
    match opening
    case Inline(_, _) => (Content(g, first).0, Handed(Content(g, first).1))
    case Bare(_, _, _) => (g.(messageStarted := AllSpace(first)), "")
  }

  /** Where the two searches land. */
  lemma QuoteFound(before: string, gap: string, rest: string)
    requires ':' !in before && '"' !in gap
    ensures var value := After(before + (":" + (gap + ("\"" + rest))), ':');
            value.Some? && After(value.value, '"') == Some(rest)
  {
    AfterSkips(before, ':', gap + ("\"" + rest));
    AfterSkips(gap, '"', rest);
  }

  lemma ColonInChunk(opening: Opening, first: string)
    requires opening.Valid()
    ensures ':' in Strip(opening.ColonChunk(first))
  {
    var chunk := opening.ColonChunk(first);
    StripKeepsChar(chunk, ':');
    if opening.Inline? {
      assert chunk[|opening.before|] == ':';
    }
  }

  lemma ColonChunkRead(key: string, h: Handler, opening: Opening, first: string)
    requires !h.inMessage && !h.messageStarted && opening.Valid()
    requires Contains(h.keyBuffer + Strip(opening.ColonChunk(first)), key)
    ensures var (g, out) := Process(key, h, opening.ColonChunk(first));
            if opening.Bare? then g == Entered(h.keyBuffer, opening.colonChunk).(messageStarted := false) && out == None
            else (g, Handed(out)) == OpenedBy(opening, h.keyBuffer, first)
  {
    ColonInChunk(opening, first);
    StripKeepsChar(opening.ColonChunk(first), ':');
    match opening
    case Inline(before, gap) => QuoteFound(before, gap, first);
    case Bare(colonChunk, _, _) => AfterIsSuffix(After(colonChunk, ':').value, '"');
  }

  lemma {:induction false} WhitesRead(key: string, h: Handler, whites: seq<string>)
    requires h.inMessage && !h.messageStarted && forall w <- whites :: AllSpace(w)
    ensures Feed(key, h, whites) == (h, "")
    decreases whites
  {
    if whites != [] {
      assert AllSpace(whites[0]);
      StripLeftEmpty(whites[0]);
      assert "" + "" == "";
      WhitesRead(key, h, whites[1..]);
    }
  }

  /** A quote alone in its chunk starts the message; one with content is passed over. */
  lemma QuoteChunkRead(key: string, h: Handler, lead: string, first: string)
    requires h.inMessage && !h.messageStarted && AllSpace(lead)
    ensures Process(key, h, lead + ("\"" + first)) == (h.(messageStarted := AllSpace(first)), None)
  {
    StripAround(lead, '"', first);
    StripLeftEmpty(lead);
    StripRightEmpty(first);
    assert Strip(lead + ("\"" + first)) == "\"" + StripRight(first);
  }

  lemma OpeningRead(key: string, h: Handler, opening: Opening, first: string)
    requires !h.inMessage && !h.messageStarted && opening.Valid()
    requires Contains(h.keyBuffer + Strip(opening.ColonChunk(first)), key)
    ensures Feed(key, h, opening.Chunks(first)) == OpenedBy(opening, h.keyBuffer, first)
  {
    var chunk := opening.ColonChunk(first);
    ColonChunkRead(key, h, opening, first);
    OneChunk(key, h, chunk);
    if opening.Bare? {
      var g, last := Process(key, h, chunk).0, opening.lead + ("\"" + first);
      WhitesRead(key, g, opening.whites);
      QuoteChunkRead(key, g, opening.lead, first);
      OneChunk(key, g, last);
      FeedAppend(key, g, opening.whites, [last]);
      FeedAppend(key, h, [chunk], opening.whites + [last]);
      assert "" + "" == "";
    }
  }

  // -------------------------------------------------------------------- the content

  /** A chunk of pure content: it does not end like a terminator. */
  predicate IsContentChunk(chunk: string) {
    Closing(chunk) == None && Strip(chunk) != "\""
  }

  lemma {:induction false} ContentsRead(key: string, h: Handler, contents: seq<string>)
    requires h.inMessage && h.messageStarted && forall c <- contents :: IsContentChunk(c)
    ensures Feed(key, h, contents) == (h, Concat(contents))
    decreases contents
  {
    if contents != [] {
      assert IsContentChunk(contents[0]);
      ContentsRead(key, h, contents[1..]);
    }
  }

  /** A chunk of an open message comes back whole exactly when it is content; otherwise it ends
      the message. */
  lemma ContentKept(key: string, h: Handler, chunk: string)
    requires h.inMessage && h.messageStarted
    ensures var (g, out) := Process(key, h, chunk);
            if IsContentChunk(chunk) then (g, out) == (h, Some(chunk)) else g == Closed(h) && |Handed(out)| < |chunk|
  {
    TrimIsPrefix(chunk);
    if chunk == "" { assert Strip(chunk) == ""; }
  }

  // --------------------------------------------------------------------- the ending

  predicate AllBlank(s: string) { forall i :: 0 <= i < |s| ==> IsBlank(s[i]) }

  /** At most one delimiter, then blanks. */
  predicate IsEnd(tail: string) {
    AllBlank(tail) || (tail != "" && IsDelimiter(tail[0]) && AllBlank(tail[1..]))
  }

  /** The chunk with the closing quote: what is before it, and what is behind. */
  datatype Ending = Ending(body: string, tail: string) {
    function Chunk(): string { body + ("\"" + tail) }

    /** The chunk gives back its body: as a lone quote only when there is none. */
    predicate EndsWell() {
      if AllSpace(body) && AllSpace(tail) then body == "" else IsEnd(tail)
    }
  }

  lemma {:induction false} TrimSplits(s: string)
    ensures TrimBlanks(s) <= s && AllBlank(s[|TrimBlanks(s)|..])
    ensures TrimBlanks(s) != "" ==> !IsBlank(TrimBlanks(s)[|TrimBlanks(s)| - 1])
    decreases s
  {
    if s != "" && IsBlank(s[|s| - 1]) { TrimSplits(s[..|s| - 1]); }
  }

  lemma {:induction false} TrimTo(x: string, blanks: string)
    requires x != "" && !IsBlank(x[|x| - 1]) && AllBlank(blanks)
    ensures TrimBlanks(x + blanks) == x
    decreases blanks
  {
    if blanks == "" {
      assert x + blanks == x;
    } else {
      var n := |blanks| - 1;
      assert (x + blanks)[..|x| + n] == x + blanks[..n];
      TrimTo(x, blanks[..n]);
    }
  }

  lemma CutAtEnd(body: string, tail: string)
    requires IsEnd(tail)
    ensures Closing(body + ("\"" + tail)) == Some(body)
  {
    var kept := body + "\"";
    if AllBlank(tail) {
      Regroup(body, "\"", tail);
      TrimTo(kept, tail);
      assert kept[..|body|] == body;
    } else {
      var more := kept + [tail[0]];
      assert body + ("\"" + tail) == more + tail[1..];
      TrimTo(more, tail[1..]);
      assert more[..|body|] == body;
    }
  }

  lemma CutBehind(body: string, tail: string)
    requires !IsEnd(tail)
    ensures var r := Closing(body + ("\"" + tail));
            body + "\"" <= if r.Some? then r.value else body + ("\"" + tail)
  {
    var s, b := body + ("\"" + tail), |body|;
    var n := |TrimBlanks(s)|;
    TrimSplits(s);
    assert s[..b + 1] == body + "\"";
    forall i | n <= i < |s| ensures IsBlank(s[i]) { assert s[i] == s[n..][i - n]; }
    assert !IsBlank(s[b]);
    assert n > b;
    forall i | 0 <= i < |tail| && n <= b + 1 + i ensures IsBlank(tail[i]) { assert tail[i] == s[b + 1 + i]; }
    assert n == b + 1 ==> AllBlank(tail);
    assert n == b + 2 ==> tail[0] == s[b + 1] && AllBlank(tail[1..]);
  }

  /** The cut is at the closing quote exactly if the tail is an end, and behind it otherwise. */
  lemma CutAtOrBehind(body: string, tail: string)
    ensures var r := Closing(body + ("\"" + tail));
            if IsEnd(tail) then r == Some(body)
            else body + "\"" <= (if r.Some? then r.value else body + ("\"" + tail))
  {
    if IsEnd(tail) { CutAtEnd(body, tail); } else { CutBehind(body, tail); }
  }

  lemma EndingStripped(ending: Ending)
    ensures Strip(ending.Chunk()) == "\"" <==> AllSpace(ending.body) && AllSpace(ending.tail)
  {
    StripAround(ending.body, '"', ending.tail);
    StripLeftEmpty(ending.body);
    StripRightEmpty(ending.tail);
    var left, right := StripLeft(ending.body), StripRight(ending.tail);
    assert |left + "\"" + right| == |left| + 1 + |right|;
    if left == "" && right == "" { assert left + "\"" + right == "\""; }
  }

  /** What comes of a closing chunk with any tail: its body, nothing where it is white but for
      the quote, and otherwise the closing quote as well. */
  lemma EndingRead(key: string, h: Handler, ending: Ending)
    requires h.inMessage && h.messageStarted
    ensures var (g, out) := Process(key, h, ending.Chunk());
            if AllSpace(ending.body) && AllSpace(ending.tail) then g == Closed(h) && out == None
            else if IsEnd(ending.tail) then g == Closed(h) && out == Some(ending.body)
            else out.Some? && ending.body + "\"" <= out.value
  {
    EndingStripped(ending);
    CutAtOrBehind(ending.body, ending.tail);
  }

  /** The same in characters: in an open message a chunk with a quote, not all white around it,
      gives back what is before the quote and ends the message if and only if behind the quote
      there is at most one comma or closing bracket, and then spaces, tabs and line ends only. */
  lemma ClosingChunk(key: string, h: Handler, body: string, tail: string)
    requires h.inMessage && h.messageStarted
    requires (exists c <- body :: !IsSpace(c)) || (exists c <- tail :: !IsSpace(c))
    ensures Process(key, h, body + ("\"" + tail)) == (h.(inMessage := false, messageStarted := false), Some(body)) <==>
      || (forall c <- tail :: c in [' ', '\t', '\r', '\n'])
      || (tail != "" && tail[0] in [',', '}', ']'] && forall c <- tail[1..] :: c in [' ', '\t', '\r', '\n'])
  {
    var ending := Ending(body, tail);
    EndingRead(key, h, ending);
    assert !(AllSpace(body) && AllSpace(tail)) by {
      assert (exists c <- body :: !IsSpace(c)) ==> !AllSpace(body);
      assert (exists c <- tail :: !IsSpace(c)) ==> !AllSpace(tail);
    }
    BlanksListed(tail);
    if tail != "" { BlanksListed(tail[1..]); }
  }

  lemma BlanksListed(s: string)
    ensures AllBlank(s) <==> forall c <- s :: c in [' ', '\t', '\r', '\n']
  {
    if AllBlank(s) {
      forall c <- s ensures c in [' ', '\t', '\r', '\n'] {
        var i :| 0 <= i < |s| && s[i] == c;
        assert IsBlank(s[i]);
      }
    }
    if forall c <- s :: c in [' ', '\t', '\r', '\n'] {
      forall i | 0 <= i < |s| ensures IsBlank(s[i]) { assert s[i] in s; }
    }
  }
}
