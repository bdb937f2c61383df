/** No dangling quotes (the fix described at letta/streaming_utils.py:102-110 and 176-181):
    after any input whatsoever the emitted text has an open quote exactly while the
    machine is inside a string value that is not an inner-thoughts value. */
module ThoughtsQuotes {
  import opened Sequences
  import opened ThoughtsMachine

  /** A reader of emitted text that knows only quotes and backslashes. */
  datatype Quotes = Quotes(open: bool, escape: bool)

  function ReadChar(q: Quotes, c: char): Quotes {
    if q.escape then Quotes(q.open, false)
    else if c == '\\' then Quotes(q.open, true)
    else Quotes(if c == '"' then !q.open else q.open, false)
  }

  function Read(q: Quotes, text: string): Quotes
    decreases text
  {
    if text == "" then q else Read(ReadChar(q, text[0]), text[1..])
  }

  lemma {:induction false} ReadAppend(q: Quotes, a: string, b: string)
    ensures Read(q, a + b) == Read(Read(q, a), b)
    decreases a
  {
    if a == "" {
      assert a + b == b;
    } else {
      assert (a + b)[0] == a[0] && (a + b)[1..] == a[1..] + b;
      ReadAppend(ReadChar(q, a[0]), a[1..], b);
    }
  }

  lemma ReadOne(q: Quotes, a: string, c: char)
    ensures Read(q, a + [c]) == ReadChar(Read(q, a), c)
  {
    ReadAppend(q, a, [c]);
    assert [c][1..] == "";
  }

  const Fresh := Quotes(false, false)

  /** Everything emitted so far, handed out or held back. */
  function Emitted(s: State): string { s.main + s.held }

  predicate InVisibleString(s: State) {
    s.inString && s.control == Value && !s.innerValue
  }

  /** Whether a backslash read now would be emitted. */
  predicate EscapeIsVisible(s: State) {
    if s.inString then s.control == Value && !s.innerValue else !s.innerValue
  }

  predicate NoDanglingQuotes(s: State) {
    Read(Fresh, Emitted(s)) == Quotes(InVisibleString(s), s.escaped && EscapeIsVisible(s))
  }

  predicate Inv(s: State) {
    && NoDanglingQuotes(s)
    && (s.hold || s.held == "")
    && (s.control == Key ==> s.inString && Read(Fresh, s.currentKey) == Quotes(false, s.escaped))
    && (s.control == Colon ==> Read(Fresh, s.currentKey) == Fresh)
  }

  lemma EmitReads(s: State, text: string)
    requires s.hold || s.held == ""
    ensures Emitted(ToMain(s, text)) == Emitted(s) + text
    ensures Read(Fresh, Emitted(ToMain(s, text))) == Read(Read(Fresh, Emitted(s)), text)
  {
    ReadAppend(Fresh, Emitted(s), text);
    if s.hold {
      Regroup(s.main, s.held, text);
    } else {
      assert s.main + s.held == s.main && (s.main + text) + s.held == s.main + text;
    }
  }

  lemma EmitCharReads(s: State, c: char)
    requires s.hold || s.held == ""
    ensures Read(Fresh, Emitted(ToMain(s, [c]))) == ReadChar(Read(Fresh, Emitted(s)), c)
  {
    EmitReads(s, [c]);
    assert [c][1..] == "";
  }

  /** A closed key, printed with its quotes, opens and closes exactly one string. */
  lemma KeyColonReads(q: Quotes, key: string)
    requires !q.open && !q.escape && Read(Fresh, key) == Fresh
    ensures Read(q, KeyColon(key)) == Fresh
  {
    ReadFlipped(Fresh, key);
    var quoted := "\"" + key;
    assert quoted[0] == '"' && quoted[1..] == key;
    assert Read(q, quoted) == Quotes(true, false);
    ReadOne(q, quoted, '"');
    ReadOne(q, quoted + "\"", ':');
    assert KeyColon(key) == quoted + "\"" + ":";
  }

  /** Reading is blind to whether a string was open before. */
  lemma {:induction false} ReadFlipped(q: Quotes, text: string)
    ensures Read(Quotes(!q.open, q.escape), text) == Quotes(!Read(q, text).open, Read(q, text).escape)
    decreases text
  {
    if text != "" {
      ReadFlipped(ReadChar(q, text[0]), text[1..]);
    }
  }

  lemma EscapeKeepsInv(s: State, c: char, starts: bool)
    requires Inv(s) && s.escaped == !starts && (starts ==> c == '\\')
    ensures Inv(EscapeChar(s.(escaped := starts), c))
  {
    var t := s.(escaped := starts);
    EmitCharReads(t, c);
    ReadOne(Fresh, s.currentKey, c);
  }

  lemma QuoteKeepsInv(wait: bool, s: State)
    requires Inv(s) && !s.escaped
    ensures Inv(if s.inString then CloseQuote(s) else OpenQuote(wait, s))
  {
    EmitCharReads(s.(inString := !s.inString), '"');
    assert (s.main + s.held) + "" == s.main + s.held;
  }

  lemma StringCharKeepsInv(s: State, c: char)
    requires Inv(s) && !s.escaped && s.inString && c != '\\' && c != '"'
    ensures Inv(StringChar(s, c))
  {
    EmitCharReads(s, c);
    ReadOne(Fresh, s.currentKey, c);
  }

  lemma ColonKeepsInv(key: string, s: State)
    requires Inv(s) && !s.escaped && !s.inString && s.control == Colon
    ensures Inv(Structural(key, s, ':'))
  {
    if s.currentKey != key {
      EmitReads(s.(control := Value, innerValue := false), KeyColon(s.currentKey));
      KeyColonReads(Read(Fresh, Emitted(s)), s.currentKey);
    }
  }

  lemma StructuralKeepsInv(key: string, s: State, c: char)
    requires Inv(s) && !s.escaped && !s.inString && c != '\\' && c != '"'
    ensures Inv(Structural(key, s, c))
  {
    if c == ':' && s.control == Colon {
      ColonKeepsInv(key, s);
    } else if c == '}' {
      EmitCharReads(s.(control := End), c);
    } else if c == ',' && s.control == CommaOrEnd {
      EmitCharReads(s, c);
    } else {
      EmitCharReads(s, c);
    }
  }

  lemma {:induction false} RunKeepsInv(key: string, wait: bool, s: State, text: string)
    requires Inv(s)
    ensures Inv(Run(key, wait, s, text))
    decreases text
  {
    if text != "" {
      var c := text[0];
      if s.escaped {
        EscapeKeepsInv(s, c, false);
      } else if c == '\\' {
        EscapeKeepsInv(s, c, true);
      } else if c == '"' {
        QuoteKeepsInv(wait, s);
      } else if s.inString {
        StringCharKeepsInv(s, c);
      } else {
        StructuralKeepsInv(key, s, c);
      }
      RunKeepsInv(key, wait, Step(key, wait, s, c), text[1..]);
    }
  }

  /** After any input, well formed or not. */
  lemma QuotesNeverDangle(key: string, wait: bool, text: string)
    ensures NoDanglingQuotes(Run(key, wait, Init(wait), text))
  {
    RunKeepsInv(key, wait, Init(wait), text);
  }
}
