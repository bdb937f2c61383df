/** When the content of a message comes out (letta/streaming_utils.py:265-344). */
module MessageDelivery {
  import opened Wrappers
  import opened Sequences
  import opened PythonStrings
  import opened MessageStream
  import opened MessageReading

  // -------------------------------------------------------------------- the message

  /** A member's string as it is streamed: over some chunks, or with its end in the chunk of its
      opening quote.  `first` is the part of it in that chunk. */
  datatype Message =
    | InChunks(opening: Opening, first: string, contents: seq<string>, ending: Ending)
    | InOneChunk(opening: Opening, ending: Ending)
  {
    function BehindQuote(): string {
      match this case InChunks(_, first, _, _) => first case InOneChunk(_, ending) => ending.Chunk()
    }

    function ColonChunk(): string { opening.ColonChunk(BehindQuote()) }

    function Chunks(): seq<string> {
      match this
      case InChunks(_, first, contents, ending) => opening.Chunks(first) + (contents + [ending.Chunk()])
      case InOneChunk(_, ending) => opening.Chunks(ending.Chunk())
    }

    function Text(): string {
      match this
      case InChunks(_, first, contents, ending) => (first + Concat(contents)) + ending.body
      case InOneChunk(_, ending) => ending.body
    }

    predicate Valid() { opening.Valid() && Escaped(Text()) }

    /** What comes before the closing chunk comes through. */
    predicate ContentIntact()
      requires InChunks?
    {
      opening.Takes(first) && forall c <- contents :: IsContentChunk(c)
    }

    /** ... and the closing chunk is taken for what it is. */
    predicate Intact() {
      match this
      case InChunks(_, _, _, ending) => ContentIntact() && ending.EndsWell()
      case InOneChunk(opening, ending) =>
        match opening
        case Inline(_, _) => IsEnd(ending.tail)
        case Bare(_, _, _) => ending.body == ""
    }

    /** The message is over afterwards. */
    predicate Closes() { Intact() && (InChunks? || opening.Inline?) }
  }

  /** The handler waits outside of strings, and hears the key with this member's colon. */
  predicate Hears(key: string, h: Handler, m: Message) {
    !h.inMessage && !h.messageStarted && Contains(h.keyBuffer + Strip(m.ColonChunk()), key)
  }

  function EndState(h: Handler, m: Message): Handler {
    Closed(Entered(h.keyBuffer, m.ColonChunk()))
  }

  // ------------------------------------------------------------- counting characters

  function Count(s: string, c: char): nat { multiset(s)[c] }

  lemma CountJoin(a: string, b: string, c: char)
    ensures Count(a + b, c) == Count(a, c) + Count(b, c)
  {
  }

  lemma CountPart(text: string, part: string, c: char)
    requires Contains(text, part)
    ensures Count(part, c) <= Count(text, c)
  {
    var i :| 0 <= i <= |text| && part <= text[i..];
    assert text == text[..i] + (part + text[i..][|part|..]);
  }

  lemma CountIn(s: string, c: char)
    ensures c in s <==> Count(s, c) > 0
  {
  }

  lemma {:induction false} CountAfter(s: string, c: char)
    requires c in s
    ensures After(s, c).Some? && Count(After(s, c).value, c) < Count(s, c)
    decreases s
  {
    assert s == [s[0]] + s[1..];
    CountJoin([s[0]], s[1..], c);
    if s[0] == c { CountIn([s[0]], c); } else { CountAfter(s[1..], c); }
  }

  lemma SuffixCount(s: string, c: char, d: char)
    requires After(s, d).Some?
    ensures Count(After(s, d).value, c) <= Count(s, c)
  {
    AfterIsSuffix(s, d);
    var n := |s| - |After(s, d).value|;
    assert s == s[..n] + After(s, d).value;
    CountJoin(s[..n], After(s, d).value, c);
  }

  // --------------------------------------------------------------------- what is lost

  /** No chunks give back more than they hold. */
  lemma {:induction false} OutputsFit(key: string, h: Handler, chunks: seq<string>, c: char)
    requires h.messageStarted ==> h.inMessage
    ensures var (g, out) := Feed(key, h, chunks);
            && (g.messageStarted ==> g.inMessage)
            && |out| <= |Concat(chunks)| && Count(out, c) <= Count(Concat(chunks), c)
    decreases chunks
  {
    if chunks != [] {
      var (g, out) := Process(key, h, chunks[0]);
      ProcessSafe(key, h, chunks[0]);
      OutputsFit(key, g, chunks[1..], c);
      if out.Some? { CountPart(chunks[0], out.value, c); }
      CountJoin(Handed(out), Feed(key, g, chunks[1..]).1, c);
      CountJoin(chunks[0], Concat(chunks[1..]), c);
    }
  }

  /** A chunk that opens a string anew does not give back its colon. */
  lemma ReentryLosesColon(key: string, h: Handler, chunk: string)
    requires !h.inMessage && !h.messageStarted
    ensures var (g, out) := Process(key, h, chunk);
            g.inMessage || out.Some? ==> Count(Handed(out), ':') < Count(chunk, ':')
  {
    if Process(key, h, chunk).0.inMessage || Process(key, h, chunk).1.Some? {
      StripKeepsChar(chunk, ':');
      CountAfter(chunk, ':');
      var value := After(chunk, ':').value;
      if After(value, '"').Some? {
        var text := After(value, '"').value;
        SuffixCount(value, ':', '"');
        TrimIsPrefix(text);
        var out := Process(key, h, chunk).1.value;
        assert text == out + text[|out|..];
        CountJoin(out, text[|out|..], ':');
      }
    }
  }

  lemma {:induction false} ReentriesLoseColon(key: string, h: Handler, chunks: seq<string>)
    requires !h.inMessage && !h.messageStarted && Feed(key, h, chunks).0.inMessage
    ensures Count(Feed(key, h, chunks).1, ':') < Count(Concat(chunks), ':')
    decreases chunks
  {
    var (g, out) := Process(key, h, chunks[0]);
    ProcessSafe(key, h, chunks[0]);
    ReentryLosesColon(key, h, chunks[0]);
    CountJoin(Handed(out), Feed(key, g, chunks[1..]).1, ':');
    CountJoin(chunks[0], Concat(chunks[1..]), ':');
    if g.inMessage {
      OutputsFit(key, g, chunks[1..], ':');
    } else {
      ReentriesLoseColon(key, g, chunks[1..]);
      if out == None { CountPartOfNothing(chunks[0], ':'); }
    }
  }

  lemma CountPartOfNothing(chunk: string, c: char)
    ensures Count("", c) <= Count(chunk, c)
  {
  }

  /** A message that ends early loses something, and a colon if it is opened again. */
  lemma {:induction false} EarlyEndLoses(key: string, h: Handler, contents: seq<string>)
    requires h.inMessage && h.messageStarted && exists c <- contents :: !IsContentChunk(c)
    ensures var (g, out) := Feed(key, h, contents);
            |out| < |Concat(contents)| && (g.inMessage ==> Count(out, ':') < Count(Concat(contents), ':'))
    decreases contents
  {
    var (g, out) := Process(key, h, contents[0]);
    ContentKept(key, h, contents[0]);
    ProcessSafe(key, h, contents[0]);
    CountJoin(Handed(out), Feed(key, g, contents[1..]).1, ':');
    CountJoin(contents[0], Concat(contents[1..]), ':');
    if IsContentChunk(contents[0]) {
      EarlyEndLoses(key, h, contents[1..]);
    } else {
      OutputsFit(key, g, contents[1..], ':');
      if out.Some? { CountPart(contents[0], out.value, ':'); }
      if Feed(key, g, contents[1..]).0.inMessage { ReentriesLoseColon(key, g, contents[1..]); }
    }
  }

  ghost predicate LosesMark(out: string, text: string) {
    Count(out, ':') < Count(text, ':') || Count(out, '\\') < Count(text, '\\')
  }

  /** A message passed over at its opening quote and started at a later, escaped one loses that
      quote's backslash, or a colon. */
  lemma {:induction false} LateStartLoses(key: string, h: Handler, lost: string, contents: seq<string>)
    requires h.inMessage && !h.messageStarted && Escaped(lost + Concat(contents)) && Feed(key, h, contents).0.messageStarted
    ensures LosesMark(Feed(key, h, contents).1, lost + Concat(contents))
    decreases contents
  {
    var chunk, rest := contents[0], contents[1..];
    var (g, out) := Process(key, h, chunk);
    assert out == None && "" + Feed(key, g, rest).1 == Feed(key, g, rest).1;
    Regroup(lost, chunk, Concat(rest));
    if Strip(chunk) == "\"" {
      OutputsFit(key, g, rest, '\\');
      EscapeBeforeQuote(lost, chunk, Concat(rest));
      CountIn(lost + chunk, '\\');
      CountJoin(lost + chunk, Concat(rest), '\\');
    } else if Strip(chunk) == "}" {
      OutputsFit(key, g, rest, ':');
      ReentriesLoseColon(key, g, rest);
      CountJoin(lost + chunk, Concat(rest), ':');
    } else {
      LateStartLoses(key, h, lost + chunk, rest);
    }
  }

  lemma EscapeBeforeQuote(lost: string, chunk: string, rest: string)
    requires Escaped(lost + (chunk + rest)) && Strip(chunk) == "\""
    ensures '\\' in lost + chunk
  {
    StripKeepsChar(chunk, '"');
    var i :| 0 <= i < |chunk| && chunk[i] == '"';
    var text := lost + (chunk + rest);
    assert text[|lost| + i] == '"';
    assert text[|lost| + i - 1] == (lost + chunk)[|lost| + i - 1];
  }

  /** An opening that is not crowded gives back the front of its text, or nothing. */
  lemma FrontFits(opening: Opening, buffer: string, first: string)
    ensures var (g, front) := OpenedBy(opening, buffer, first);
            && front <= first && Count(front, ':') <= Count(first, ':')
            && (!opening.Takes(first) ==> |front| < |first|)
            && (g.messageStarted ==> g.inMessage)
  {
    TrimIsPrefix(first);
    var front := OpenedBy(opening, buffer, first).1;
    assert first == front + first[|front|..];
    CountJoin(front, first[|front|..], ':');
  }

  lemma EscapedFront(a: string, b: string)
    requires Escaped(a + b)
    ensures Escaped(a)
  {
    forall i | 0 <= i < |a| && a[i] == '"' ensures i > 0 && a[i - 1] == '\\' {
      assert (a + b)[i] == a[i];
      assert i > 0 ==> (a + b)[i - 1] == a[i - 1];
    }
  }

  /** What is missing before the closing chunk of a message that is open then: a colon, a
      backslash, or nothing but white text. */
  lemma MarkMissing(key: string, buffer: string, m: Message)
    requires m.InChunks? && m.Valid() && !m.ContentIntact()
    requires Feed(key, OpenedBy(m.opening, buffer, m.first).0, m.contents).0.messageStarted
    ensures var (g, front) := OpenedBy(m.opening, buffer, m.first);
            var middle := Feed(key, g, m.contents).1;
            || LosesMark(front + middle, m.first + Concat(m.contents))
            || (front == "" && AllSpace(m.first) && middle == Concat(m.contents))
  {
    var (g, front) := OpenedBy(m.opening, buffer, m.first);
    var (h, middle) := Feed(key, g, m.contents);
    FrontFits(m.opening, buffer, m.first);
    OutputsFit(key, g, m.contents, ':');
    CountJoin(front, middle, ':');
    CountJoin(m.first, Concat(m.contents), ':');
    if g.inMessage && !g.messageStarted {
      EscapedFront(m.first + Concat(m.contents), m.ending.body);
      LateStartLoses(key, g, m.first, m.contents);
      assert "" + middle == middle;
    } else if !g.inMessage {
      ReentriesLoseColon(key, g, m.contents);
    } else if exists c <- m.contents :: !IsContentChunk(c) {
      EarlyEndLoses(key, g, m.contents);
    } else {
      ContentsRead(key, g, m.contents);
    }
  }

  /** Before the closing chunk, a message that did not come through is shorter. */
  lemma LengthMissing(key: string, buffer: string, m: Message)
    requires m.InChunks? && !m.ContentIntact()
    ensures var (g, front) := OpenedBy(m.opening, buffer, m.first);
            var (h, middle) := Feed(key, g, m.contents);
            && (h.messageStarted ==> h.inMessage)
            && |front + middle| < |m.first + Concat(m.contents)|
            && Count(front + middle, ':') <= Count(m.first + Concat(m.contents), ':')
  {
    var (g, front) := OpenedBy(m.opening, buffer, m.first);
    FrontFits(m.opening, buffer, m.first);
    OutputsFit(key, g, m.contents, ':');
    CountJoin(front, Feed(key, g, m.contents).1, ':');
    CountJoin(m.first, Concat(m.contents), ':');
    if m.opening.Takes(m.first) && g.messageStarted { EarlyEndLoses(key, g, m.contents); }
  }

  /** What a handler can make of a closing chunk without further colons: no more than its body, a
      string opened again without its colon, or the closing quote as well. */
  lemma EndingFits(key: string, h: Handler, ending: Ending)
    requires (h.messageStarted ==> h.inMessage) && ':' !in ending.tail
    ensures var out := Handed(Process(key, h, ending.Chunk()).1);
            || |out| <= |ending.body|
            || (!h.inMessage && Count(out, ':') < Count(ending.body, ':'))
            || (h.messageStarted && ending.body + "\"" <= out)
  {
    if h.messageStarted {
      EndingRead(key, h, ending);
    } else if !h.inMessage {
      ReentryLosesColon(key, h, ending.Chunk());
      EndingCount(ending, ':');
    }
  }

  lemma EndingCount(ending: Ending, c: char)
    requires c !in ending.tail && c != '"'
    ensures Count(ending.Chunk(), c) == Count(ending.body, c)
  {
    CountIn(ending.tail, c);
    CountJoin("\"", ending.tail, c);
    CountJoin(ending.body, "\"" + ending.tail, c);
  }

  // ------------------------------------------------------------------- whole messages

  /** What the opening, the content and the closing chunk hand out, one after the other. */
  lemma StreamRead(key: string, h: Handler, m: Message)
    requires m.Valid() && Hears(key, h, m)
    ensures var (g, front) := OpenedBy(m.opening, h.keyBuffer, m.BehindQuote());
            Feed(key, h, m.Chunks()) ==
            if m.InOneChunk? then (g, front)
            else
              var (k, middle) := Feed(key, g, m.contents);
              var (end, last) := Process(key, k, m.ending.Chunk());
              (end, (front + middle) + Handed(last))
  {
    var (g, front) := OpenedBy(m.opening, h.keyBuffer, m.BehindQuote());
    OpeningRead(key, h, m.opening, m.BehindQuote());
    if m.InChunks? {
      var k := Feed(key, g, m.contents).0;
      FeedAppend(key, h, m.opening.Chunks(m.first), m.contents + [m.ending.Chunk()]);
      FeedAppend(key, g, m.contents, [m.ending.Chunk()]);
      OneChunk(key, k, m.ending.Chunk());
      Regroup(front, Feed(key, g, m.contents).1, Handed(Process(key, k, m.ending.Chunk()).1));
    }
  }

  /** Where the content came through, the closing chunk decides; if it is not taken for what it
      is, its quote comes out as well, unless it is white and gives back nothing. */
  lemma ClosingDecides(key: string, h: Handler, m: Message)
    requires m.InChunks? && m.Valid() && Hears(key, h, m) && m.ContentIntact()
    ensures var (end, out) := Feed(key, h, m.Chunks());
            if m.ending.EndsWell() then (end, out) == (EndState(h, m), m.Text())
            else if AllSpace(m.ending.body) && AllSpace(m.ending.tail) then out + m.ending.body == m.Text() && m.ending.body != ""
            else m.Text() + "\"" <= out
  {
    var g := Entered(h.keyBuffer, m.ColonChunk());
    var content := m.first + Concat(m.contents);
    StreamRead(key, h, m);
    ContentsRead(key, g, m.contents);
    EndingRead(key, g, m.ending);
    NothingBehind(content);
    var last := Handed(Process(key, g, m.ending.Chunk()).1);
    if m.ending.body + "\"" <= last { QuoteComesOut(content, m.ending.body, last); }
  }

  lemma NothingBehind(content: string)
    ensures content + "" == content
  {
  }

  lemma QuoteComesOut(content: string, body: string, last: string)
    requires body + "\"" <= last
    ensures (content + body) + "\"" <= content + last
  {
    Regroup(content, body, "\"");
    Regroup(content, body + "\"", last[|body + "\""|..]);
    assert last == (body + "\"") + last[|body + "\""|..];
  }

  lemma OneChunkDelivered(key: string, h: Handler, m: Message)
    requires m.InOneChunk? && m.Valid() && Hears(key, h, m)
    ensures var (end, out) := Feed(key, h, m.Chunks());
            && (out == m.Text() <==> m.Intact())
            && (m.Closes() ==> end == EndState(h, m))
  {
    StreamRead(key, h, m);
    CutAtOrBehind(m.ending.body, m.ending.tail);
  }

  /** A loss before the closing chunk is not made up for by it. */
  lemma LossShows(h: Handler, x: string, y: string, out: string, ending: Ending)
    requires |x| < |y| && Count(x, ':') <= Count(y, ':') && ':' !in ending.tail && '\\' !in ending.tail
    requires Contains(ending.Chunk(), out)
    requires || |out| <= |ending.body|
             || (!h.inMessage && Count(out, ':') < Count(ending.body, ':'))
             || (h.messageStarted && ending.body + "\"" <= out)
    requires h.messageStarted ==> LosesMark(x, y) || Count(x, '"') == Count(y, '"')
    ensures x + out != y + ending.body
  {
    forall c ensures Count(x + out, c) == Count(x, c) + Count(out, c) && Count(y + ending.body, c) == Count(y, c) + Count(ending.body, c) {
      CountJoin(x, out, c);
      CountJoin(y, ending.body, c);
    }
    forall c | c == ':' || c == '\\' ensures Count(out, c) <= Count(ending.body, c) {
      CountPart(ending.Chunk(), out, c);
      EndingCount(ending, c);
    }
    if ending.body + "\"" <= out {
      assert out == (ending.body + "\"") + out[|ending.body + "\""|..];
      CountJoin(ending.body + "\"", out[|ending.body + "\""|..], '"');
      CountJoin(ending.body, "\"", '"');
      CountIn("\"", '"');
    }
  }

  lemma WhiteHasNoQuote(white: string, rest: string)
    requires AllSpace(white)
    ensures Count("" + rest, '"') == Count(white + rest, '"')
  {
    assert '"' !in white;
    CountIn(white, '"');
    CountJoin(white, rest, '"');
    CountJoin("", rest, '"');
  }

  lemma BrokenNotDelivered(key: string, h: Handler, m: Message)
    requires m.InChunks? && m.Valid() && Hears(key, h, m) && !m.ContentIntact()
    requires ':' !in m.ending.tail && '\\' !in m.ending.tail
    ensures Feed(key, h, m.Chunks()).1 != m.Text()
  {
    var (g, front) := OpenedBy(m.opening, h.keyBuffer, m.first);
    var (k, middle) := Feed(key, g, m.contents);
    StreamRead(key, h, m);
    LengthMissing(key, h.keyBuffer, m);
    if k.messageStarted {
      MarkMissing(key, h.keyBuffer, m);
      if AllSpace(m.first) { WhiteHasNoQuote(m.first, Concat(m.contents)); }
    }
    EndingFits(key, k, m.ending);
    ProcessSafe(key, k, m.ending.Chunk());
    EmptyIsPart(m.ending.Chunk());
    LossShows(k, front + middle, m.first + Concat(m.contents), Handed(Process(key, k, m.ending.Chunk()).1), m.ending);
  }

  lemma EmptyIsPart(text: string)
    ensures Contains(text, "")
  {
    assert "" <= text[0..];
  }

  /** A member's string, however it is cut, for a handler outside of strings that hears the key
      with the member's colon: the outputs concatenate to the string if and only if its opening
      takes what is in the quote's chunk, no chunk of it ends like a terminator, and the closing
      chunk goes on with at most one delimiter and blanks and is not white content and a quote.
      Behind lost content the closing chunk must bring no further colon or backslash. */
  lemma MessageDelivered(key: string, h: Handler, m: Message)
    requires m.Valid() && Hears(key, h, m)
    requires m.InChunks? && !m.ContentIntact() ==> ':' !in m.ending.tail && '\\' !in m.ending.tail
    ensures var (end, out) := Feed(key, h, m.Chunks());
            && (out == m.Text() <==> m.Intact())
            && (m.Closes() ==> end == EndState(h, m))
  {
    if m.InOneChunk? {
      OneChunkDelivered(key, h, m);
    } else if m.ContentIntact() {
      ClosingDecides(key, h, m);
    } else {
      BrokenNotDelivered(key, h, m);
    }
  }

  /** The same from the start of an object, behind any chunks that do not let the key be heard
      before. */
  lemma ObjectDelivered(key: string, head: seq<string>, m: Message)
    requires IsHead(key, "", head) && m.Valid() && Contains(BufferAfter("", head) + Strip(m.ColonChunk()), key)
    requires m.InChunks? && !m.ContentIntact() ==> ':' !in m.ending.tail && '\\' !in m.ending.tail
    ensures var (end, out) := Feed(key, Reset, head + m.Chunks());
            && (out == m.Text() <==> m.Intact())
            && (m.Closes() ==> end == Closed(Entered(BufferAfter("", head), m.ColonChunk())))
  {
    var h := Feed(key, Reset, head).0;
    HeadPassed(key, head, m.Chunks());
    MessageDelivered(key, h, m);
  }

  /** A chunk with the member's colon behind an earlier one, and with the key's own quote: what is
      between comes out, and so nothing else in the chunk or behind it makes the member's string
      of it. */
  lemma EarlierColonNotDelivered(key: string, h: Handler, earlier: string, between: string, before: string, rest: string,
                                 more: seq<string>, text: string)
    requires !h.inMessage && !h.messageStarted && ':' !in earlier && '"' !in between && !Escaped(before) && Escaped(text)
    requires Contains(h.keyBuffer + Strip(earlier + (":" + (between + ("\"" + (before + (":" + rest)))))), key)
    ensures Feed(key, h, [earlier + (":" + (between + ("\"" + (before + (":" + rest)))))] + more).1 != text
  {
    var crowd := before + (":" + rest);
    var chunk := earlier + (":" + (between + ("\"" + crowd)));
    QuoteFound(earlier, between, crowd);
    StripKeepsChar(chunk, ':');
    assert chunk[|earlier|] == ':';
    var (g, front) := Process(key, h, chunk);
    FrontKept(before, rest);
    assert front.Some? && before <= front.value;
    var out := front.value + Feed(key, g, more).1;
    assert ([chunk] + more)[1..] == more;
    assert before <= out;
    UnescapedFront(before, out);
  }

  /** No cut is made in front of a colon. */
  lemma FrontKept(before: string, rest: string)
    ensures var s := before + (":" + rest);
            before <= if Closing(s).Some? then Closing(s).value else s
  {
    var s := before + (":" + rest);
    var n := |TrimBlanks(s)|;
    TrimSplits(s);
    assert s[|before|] == ':';
    forall i | n <= i < |s| ensures IsBlank(s[i]) { assert s[i] == s[n..][i - n]; }
    assert n > |before|;
  }

  lemma UnescapedFront(front: string, text: string)
    requires front <= text && !Escaped(front)
    ensures !Escaped(text)
  {
    var i :| 0 <= i < |front| && front[i] == '"' && !(i > 0 && front[i - 1] == '\\');
    assert text[i] == '"' && (i > 0 ==> text[i - 1] == front[i - 1]);
  }
}
