/** wait_for_first_key=True against wait_for_first_key=False
    (letta/streaming_utils.py:49-50, 118-123, 136-146): the waiting machine computes the
    same thing and only decides when to hand it out. */
module ThoughtsWaiting {
  import opened ThoughtsMachine

  /** The next character opens a key after some inner-thoughts string was finished. */
  predicate OpensKeyAfterThoughts(s: State, c: char) {
    && c == '"' && !s.escaped && !s.inString
    && (s.control == Start || s.control == CommaOrEnd)
    && s.processed
  }

  /** The plain machine meets such a character somewhere in the text. */
  predicate Unlocks(key: string, s: State, text: string)
    decreases text
  {
    text != "" && (OpensKeyAfterThoughts(s, text[0]) || Unlocks(key, Step(key, false, s, text[0]), text[1..]))
  }

  /** States of the plain machine never hold anything back. */
  predicate Plain(s: State) { !s.hold && s.held == "" }

  /** The waiting machine's state that goes with a plain one: the same but for where the
      main text sits. */
  function Waiting(s: State, hold: bool): State {
    if hold then s.(hold := true, main := "", held := s.main) else s
  }

  lemma EmitAgrees(s: State, hold: bool, text: string)
    requires Plain(s)
    ensures Plain(ToMain(s, text))
    ensures ToMain(Waiting(s, hold), text) == Waiting(ToMain(s, text), hold)
  {
  }

  lemma StringCharAgrees(s: State, hold: bool, c: char)
    requires Plain(s)
    ensures Plain(StringChar(s, c))
    ensures StringChar(Waiting(s, hold), c) == Waiting(StringChar(s, c), hold)
  {
    EmitAgrees(s, hold, [c]);
  }

  lemma EscapeAgrees(s: State, hold: bool, c: char, escaped: bool)
    requires Plain(s)
    ensures Plain(EscapeChar(s.(escaped := escaped), c))
    ensures EscapeChar(Waiting(s, hold).(escaped := escaped), c) == Waiting(EscapeChar(s.(escaped := escaped), c), hold)
  {
    var t := s.(escaped := escaped);
    assert Waiting(s, hold).(escaped := escaped) == Waiting(t, hold);
    StringCharAgrees(t, hold, c);
    EmitAgrees(t, hold, [c]);
  }

  lemma CloseQuoteAgrees(s: State, hold: bool)
    requires Plain(s)
    ensures Plain(CloseQuote(s))
    ensures CloseQuote(Waiting(s, hold)) == Waiting(CloseQuote(s), hold)
  {
    var t := s.(inString := false);
    assert Waiting(s, hold).(inString := false) == Waiting(t, hold);
    EmitAgrees(t, hold, "\"");
  }

  lemma OpenQuoteAgrees(s: State, hold: bool)
    requires Plain(s) && !s.escaped && !s.inString
    ensures Plain(OpenQuote(false, s))
    ensures OpenQuote(true, Waiting(s, hold)) == Waiting(OpenQuote(false, s), hold && !OpensKeyAfterThoughts(s, '"'))
  {
    var t := s.(inString := true);
    assert Waiting(s, hold).(inString := true) == Waiting(t, hold);
    EmitAgrees(t, hold, "\"");
    assert "" + s.main == s.main;
  }

  lemma StructuralAgrees(key: string, s: State, hold: bool, c: char)
    requires Plain(s)
    ensures Plain(Structural(key, s, c))
    ensures Structural(key, Waiting(s, hold), c) == Waiting(Structural(key, s, c), hold)
  {
    if c == ':' && s.control == Colon {
      var t := s.(control := Value, innerValue := s.currentKey == key);
      assert Waiting(s, hold).(control := Value, innerValue := s.currentKey == key) == Waiting(t, hold);
      EmitAgrees(t, hold, KeyColon(s.currentKey));
    } else if c == '}' {
      assert Waiting(s, hold).(control := End) == Waiting(s.(control := End), hold);
      EmitAgrees(s.(control := End), hold, "}");
    } else {
      EmitAgrees(s, hold, [c]);
    }
  }

  lemma StepAgrees(key: string, s: State, hold: bool, c: char)
    requires Plain(s)
    ensures Plain(Step(key, false, s, c))
    ensures Step(key, true, Waiting(s, hold), c)
         == Waiting(Step(key, false, s, c), hold && !OpensKeyAfterThoughts(s, c))
  {
    if s.escaped {
      EscapeAgrees(s, hold, c, false);
    } else if c == '\\' {
      EscapeAgrees(s, hold, c, true);
    } else if c == '"' {
      if s.inString { CloseQuoteAgrees(s, hold); } else { OpenQuoteAgrees(s, hold); }
    } else if s.inString {
      StringCharAgrees(s, hold, c);
    } else {
      StructuralAgrees(key, s, hold, c);
    }
  }

  lemma {:induction false} RunAgrees(key: string, s: State, hold: bool, text: string)
    requires Plain(s)
    ensures Plain(Run(key, false, s, text))
    ensures Run(key, true, Waiting(s, hold), text)
         == Waiting(Run(key, false, s, text), hold && !Unlocks(key, s, text))
    decreases text
  {
    if text != "" {
      StepAgrees(key, s, hold, text[0]);
      RunAgrees(key, Step(key, false, s, text[0]), hold && !OpensKeyAfterThoughts(s, text[0]), text[1..]);
    }
  }

  /** On every input: same control state, flags and inner thoughts; the main text is wholly
      held back until the first key after a finished inner-thoughts string, and wholly handed
      out from there on. */
  lemma WaitingRefinesPlain(key: string, text: string)
    ensures var plain := Run(key, false, Init(false), text);
            var waiting := Run(key, true, Init(true), text);
            && waiting == plain.(hold := waiting.hold, main := waiting.main, held := waiting.held)
            && (waiting.hold <==> !Unlocks(key, Init(false), text))
            && waiting.main == (if Unlocks(key, Init(false), text) then plain.main else "")
            && waiting.held == (if Unlocks(key, Init(false), text) then "" else plain.main)
  {
    assert Waiting(Init(false), true) == Init(true);
    RunAgrees(key, Init(false), true, text);
  }
}
