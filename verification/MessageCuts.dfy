/** Concrete objects, cut into chunks, with what comes out of them
    (letta/streaming_utils.py:265-344). */
module MessageCuts {
  import opened Wrappers
  import opened Sequences
  import opened PythonStrings
  import opened MessageStream
  import opened MessageReading
  import opened MessageDelivery

  /** What comes out of a message behind the chunks of a brace and the key. */
  function OutOf(m: Message): string { Feed("message", Reset, ["{", "\"message\""] + m.Chunks()).1 }

  /** The key is first heard with this member's colon. */
  predicate Heard(key: string, head: seq<string>, m: Message) {
    IsHead(key, "", head) && Contains(BufferAfter("", head) + Strip(m.ColonChunk()), key)
  }

  /** A quote of its own behind a colon of its own. */
  const Plainly := Bare(":", [], "")

  lemma ContainsAt(a: string, part: string, b: string)
    ensures Contains(a + (part + b), part)
  {
    assert (a + (part + b))[|a|..] == part + b;
  }

  lemma KeyHeard(key: string, name: string)
    requires name != "" && !IsSpace(name[0]) && !IsSpace(name[|name| - 1]) && name[0] == '"' && |name| > 1 && ':' !in name
    ensures BufferAfter("", ["{", name]) == name
    ensures IsHead(key, "", ["{", name])
  {
    var head := ["{", name];
    StripKeeps("{");
    StripKeeps(name);
    assert head[1..] == [name] && head[1..][1..] == [];
    assert "" + name == name;
    assert BufferAfter("", head[1..]) == BufferAfter(name, []);
  }

  lemma PlainlyValid()
    ensures Plainly.Valid() && Strip(":") == ":"
  {
    StripKeeps(":");
    assert ":"[1..] == "" && After(":", ':') == Some("");
  }

  lemma KeyFound(name: string, rest: string, m: Message)
    requires name != "" && !IsSpace(name[0]) && !IsSpace(name[|name| - 1]) && name[0] == '"' && |name| > 1 && ':' !in name
    requires name + ":" == "\"" + ("message" + rest) && m.opening == Plainly
    ensures Heard("message", ["{", name], m)
  {
    KeyHeard("message", name);
    PlainlyValid();
    ContainsAt("\"", "message", rest);
  }

  lemma MessageFound(m: Message)
    requires m.opening == Plainly
    ensures Heard("message", ["{", "\"message\""], m)
  {
    assert "\"message\"" + ":" == "\"" + ("message" + "\":");
    KeyFound("\"message\"", "\":", m);
  }

  /** The theorem for a plain opening. */
  lemma PlainlyDelivered(m: Message)
    requires m.InChunks? && m.opening == Plainly && Escaped(m.Text())
    requires ':' !in m.ending.tail && '\\' !in m.ending.tail
    ensures m.Valid() && (OutOf(m) == m.Text() <==> m.Intact())
  {
    PlainlyValid();
    MessageFound(m);
    ObjectDelivered("message", ["{", "\"message\""], m);
  }

  /** `say "hi"`, its escaped quotes in chunks of their own: the first one ends the message. */
  const EscapedQuote := InChunks(Plainly, "", ["say ", "\\\"", "hi", "\\\""], Ending("", "}"))

  lemma EscapedQuoteNotDelivered()
    ensures EscapedQuote.Valid() && OutOf(EscapedQuote) != EscapedQuote.Text()
  {
    assert EscapedQuote.Text() == "say \\\"hi\\\"";
    PlainlyDelivered(EscapedQuote);
    assert TrimBlanks("\\\"") == "\\\"";
    assert !IsContentChunk(EscapedQuote.contents[1]);
  }

  /** An opening quote with the first word in its chunk, behind a colon of its own. */
  const GluedQuote := InChunks(Plainly, "Hello", [" world"], Ending("", ""))

  lemma GluedQuoteNotDelivered()
    ensures GluedQuote.Valid() && OutOf(GluedQuote) != GluedQuote.Text()
  {
    assert GluedQuote.Text() == "Hello world";
    PlainlyDelivered(GluedQuote);
  }

  /** The theorem for a plain opening and a tail that is no end. */
  lemma PlainlyNotEnded(m: Message)
    requires m.InChunks? && m.opening == Plainly && Escaped(m.Text()) && m.ContentIntact()
    requires !IsEnd(m.ending.tail) && !AllSpace(m.ending.tail)
    ensures m.Valid() && m.Text() + "\"" <= OutOf(m)
  {
    PlainlyValid();
    MessageFound(m);
    HeadPassed("message", ["{", "\"message\""], m.Chunks());
    ClosingDecides("message", Feed("message", Reset, ["{", "\"message\""]).0, m);
  }

  lemma LongTails()
    ensures !IsEnd(",\"") && !AllSpace(",\"") && !IsEnd("\n}") && !AllSpace("\n}")
  {
    assert !IsBlank(",\""[0]) && !IsBlank(",\""[1..][0]) && !IsSpace(",\""[0]);
    assert !IsBlank("\n}"[1]) && !IsSpace("\n}"[1]);
  }

  lemma HiIntact(tail: string)
    ensures var m := InChunks(Plainly, "", ["hi"], Ending("", tail));
            m.Text() == "hi" && Escaped(m.Text()) && m.ContentIntact()
  {
    assert ["hi"][1..] == [];
    StripKeeps("hi");
    assert IsContentChunk("hi");
  }

  /** The closing quote in one chunk with the next key's quote, or with a newline and the brace:
      it comes out. */
  lemma LongTailNotDelivered(tail: string)
    requires tail == ",\"" || tail == "\n}"
    ensures var m := InChunks(Plainly, "", ["hi"], Ending("", tail));
            m.Valid() && m.Text() == "hi" && "hi\"" <= OutOf(m)
  {
    LongTails();
    HiIntact(tail);
    PlainlyNotEnded(InChunks(Plainly, "", ["hi"], Ending("", tail)));
  }

  /** The closing quote with a comma behind it. */
  lemma CommaEndsMessage(h: Handler)
    requires h.inMessage && h.messageStarted
    ensures Process("message", h, "hi\",") == (h.(inMessage := false, messageStarted := false), Some("hi"))
  {
    assert !IsSpace("hi"[0]) && "hi"[0] in "hi";
    assert ","[1..] == "";
    assert "hi" + ("\"" + ",") == "hi\",";
    ClosingChunk("message", h, "hi", ",");
  }

  /** A space at the end of the message, in the chunk of the closing quote. */
  const WhiteEnd := InChunks(Plainly, "", ["hi"], Ending(" ", ""))

  lemma WhiteEndNotDelivered()
    ensures WhiteEnd.Valid() && OutOf(WhiteEnd) != WhiteEnd.Text()
  {
    assert ["hi"][1..] == [] && WhiteEnd.Text() == "hi ";
    PlainlyDelivered(WhiteEnd);
  }

  /** The whole object in one chunk comes through. */
  const WholeObject := InOneChunk(Inline("{\"message\"", " "), Ending("hi", "}"))

  lemma WholeObjectValid()
    ensures WholeObject.Valid() && WholeObject.Intact()
    ensures WholeObject.ColonChunk() == "{\"message\": \"hi\"}"
  {
    assert WholeObject.ending.Chunk() == "hi\"}";
  }

  /** An object in one chunk that has the key in it. */
  lemma OneChunkLeads(m: Message, a: string, b: string)
    requires m.ColonChunk() == a + ("message" + b)
    requires m.ColonChunk() != "" && !IsSpace(m.ColonChunk()[0]) && !IsSpace(m.ColonChunk()[|m.ColonChunk()| - 1])
    ensures Heard("message", [], m)
  {
    var chunk := m.ColonChunk();
    StripKeeps(chunk);
    ContainsAt(a, "message", b);
    assert "" + chunk == chunk;
  }

  lemma WholeObjectDelivered()
    ensures WholeObject.Chunks() == ["{\"message\": \"hi\"}"]
    ensures Feed("message", Reset, WholeObject.Chunks()).1 == "hi"
  {
    WholeObjectValid();
    OneChunkLeads(WholeObject, "{\"", "\": \"hi\"}");
    assert [] + WholeObject.Chunks() == WholeObject.Chunks();
    ObjectDelivered("message", [], WholeObject);
  }

  const Five := InChunks(Plainly, "", ["5"], Ending("", ""))

  lemma FiveIntact()
    ensures Five.Valid() && Five.Intact() && Five.Text() == "5"
  {
    assert ["5"][1..] == [];
    PlainlyValid();
    StripKeeps("5");
    assert IsContentChunk("5");
  }

  /** The key is looked for anywhere in the buffer: a member whose name is longer is taken for
      the message. */
  lemma LongerNameTaken()
    ensures Feed("message", Reset, ["{", "\"message_id\""] + Five.Chunks()).1 == "5"
  {
    FiveIntact();
    var name := "\"message_id\"";
    assert name + ":" == "\"" + ("message" + "_id\":");
    KeyFound(name, "_id\":", Five);
    ObjectDelivered("message", ["{", name], Five);
  }

  /** Behind lost content, a closing chunk with another member may put back just what was lost. */
  const MadeUpFor := InChunks(Plainly, "", ["a\\\""], Ending(",", ",\"k\":\"\",\""))

  const Started := Entered("\"message\"", ":")

  lemma ContentLost()
    ensures Process("message", Started, "a\\\"") == (Closed(Started), Some("a\\"))
    ensures !IsContentChunk("a\\\"")
  {
    StripKeeps("a\\\"");
    assert TrimBlanks("a\\\"") == "a\\\"" && "a\\\""[..2] == "a\\";
  }

  lemma EndingReenters()
    ensures Process("message", Closed(Started), MadeUpFor.ending.Chunk()).1 == Some("\",")
  {
    var before, value := ",\",\"k\"", "\"\",\"";
    var chunk := before + ([':'] + value);
    assert MadeUpFor.ending.Chunk() == chunk;
    StripKeeps(chunk);
    KeyStillHeard(chunk);
    AfterSkips(before, ':', value);
    assert chunk[|before|] == ':';
    ValueGivenBack();
  }

  lemma KeyStillHeard(chunk: string)
    ensures Contains(Closed(Started).keyBuffer + chunk, "message")
  {
    StripKeeps(":");
    ContainsAt("\"", "message", "\":" + chunk);
    assert Closed(Started).keyBuffer == "\"message\":";
    assert "\"message\":" + chunk == "\"" + ("message" + ("\":" + chunk));
  }

  lemma ValueGivenBack()
    ensures After("\"\",\"", '"') == Some("\",\"") && Closing("\",\"") == Some("\",")
  {
    assert "\"\",\""[1..] == "\",\"";
    assert TrimBlanks("\",\"") == "\",\"" && "\",\""[..2] == "\",";
  }

  lemma StartedRead(m: Message)
    requires m.InChunks? && m.opening == Plainly && m.first == "" && Escaped(m.Text())
    ensures m.Valid()
    ensures var (h, middle) := Feed("message", Started, m.contents);
            OutOf(m) == middle + Handed(Process("message", h, m.ending.Chunk()).1)
  {
    PlainlyValid();
    KeyHeard("message", "\"message\"");
    MessageFound(m);
    HeadPassed("message", ["{", "\"message\""], m.Chunks());
    StreamRead("message", Feed("message", Reset, ["{", "\"message\""]).0, m);
    var middle := Feed("message", Started, m.contents).1;
    assert OpenedBy(Plainly, "\"message\"", "") == (Started, "");
    assert "" + middle == middle;
  }

  lemma MadeUpForText()
    ensures MadeUpFor.Text() == "a\\\"," && Escaped(MadeUpFor.Text())
  {
    assert MadeUpFor.contents[1..] == [];
  }

  lemma LossMadeUpFor()
    ensures MadeUpFor.Valid() && !MadeUpFor.Intact() && OutOf(MadeUpFor) == MadeUpFor.Text()
  {
    var chunk := MadeUpFor.contents[0];
    MadeUpForText();
    assert MadeUpFor.contents == [chunk];
    ContentLost();
    OneChunk("message", Started, chunk);
    EndingReenters();
    StartedRead(MadeUpFor);
    assert "a\\" + "\"," == "a\\\",";
  }
}
