/** The character machine of JSONInnerThoughtsExtractor, as a function on states
    (letta/streaming_utils.py:38-236).  The class in ThoughtsExtractor.dfy is
    proved to follow it. */
module ThoughtsMachine {
  import opened Sequences

  datatype Control = Start | Key | Colon | Value | CommaOrEnd | End

  datatype State = State(
    control: Control,
    inString: bool,
    escaped: bool,
    currentKey: string,
    innerValue: bool,     // is_inner_thoughts_value
    processed: bool,      // inner_thoughts_processed
    hold: bool,           // hold_main_json
    main: string,
    thoughts: string,
    held: string)

  function Init(wait: bool): State {
    State(Start, false, false, "", false, false, wait, "", "", "")
  }

  function ToMain(s: State, text: string): State {
    if s.hold then s.(held := s.held + text) else s.(main := s.main + text)
  }

  function ToThoughts(s: State, text: string): State {
    s.(thoughts := s.thoughts + text)
  }

  /** A character that belongs to the string being read. */
  function StringChar(s: State, c: char): State {
    match s.control
    case Key => s.(currentKey := s.currentKey + [c])
    case Value => if s.innerValue then ToThoughts(s, [c]) else ToMain(s, [c])
    case _ => s
  }

  /** A backslash, or the character behind one: neither is ever structural. */
  function EscapeChar(s: State, c: char): State {
    if s.inString then StringChar(s, c)
    else if s.innerValue then s
    else ToMain(s, [c])
  }

  function Release(s: State): State {
    s.(main := s.main + s.held, held := "", hold := false)
  }

  function OpenQuote(wait: bool, s: State): State {
    var t := s.(inString := true);
    if s.control == Start || s.control == CommaOrEnd then
      var u := t.(control := Key, currentKey := "");
      if wait && u.hold && u.processed then Release(u) else u
    else if s.control == Value && !s.innerValue then ToMain(t, "\"")
    else t
  }

  function CloseQuote(s: State): State {
    var t := s.(inString := false);
    if s.control == Key then t.(control := Colon)
    else if s.control == Value then
      if s.innerValue then t.(processed := true, control := CommaOrEnd)
      else ToMain(t, "\"").(control := CommaOrEnd)
    else t
  }

  function KeyColon(key: string): string {
    "\"" + key + "\":"
  }

  /** An unescaped character outside every string, other than a quote. */
  function Structural(key: string, s: State, c: char): State {
    if c == ':' && s.control == Colon then
      var t := s.(control := Value, innerValue := s.currentKey == key);
      if t.innerValue then t else ToMain(t, KeyColon(s.currentKey))
    else if c == ',' && s.control == CommaOrEnd then
      if s.innerValue then s.(innerValue := false, control := Start)
      else ToMain(s, ",").(control := Start)
    else if c == '{' then
      if s.innerValue then s else ToMain(s, "{")
    else if c == '}' then
      ToMain(s.(control := End), "}")
    else if s.control == Value then
      if s.innerValue then ToThoughts(s, [c]) else ToMain(s, [c])
    else s
  }

  function Step(key: string, wait: bool, s: State, c: char): State {
    if s.escaped then EscapeChar(s.(escaped := false), c)
    else if c == '\\' then EscapeChar(s.(escaped := true), c)
    else if c == '"' then (if s.inString then CloseQuote(s) else OpenQuote(wait, s))
    else if s.inString then StringChar(s, c)
    else Structural(key, s, c)
  }

  function Run(key: string, wait: bool, s: State, text: string): State
    decreases text
  {
    if text == "" then s else Run(key, wait, Step(key, wait, s, text[0]), text[1..])
  }

  lemma {:induction false} RunAppend(key: string, wait: bool, s: State, a: string, b: string)
    ensures Run(key, wait, s, a + b) == Run(key, wait, Run(key, wait, s, a), b)
    decreases a
  {
    if a == "" {
      assert a + b == b;
    } else {
      assert (a + b)[0] == a[0] && (a + b)[1..] == a[1..] + b;
      RunAppend(key, wait, Step(key, wait, s, a[0]), a[1..], b);
    }
  }

  lemma RunSnoc(key: string, wait: bool, s: State, text: string, i: nat)
    requires i < |text|
    ensures Run(key, wait, s, text[..i + 1]) == Step(key, wait, Run(key, wait, s, text[..i]), text[i])
  {
    RunAppend(key, wait, s, text[..i], [text[i]]);
    TakeSnoc(text, i);
  }

  // --------------------------------------------------------------- fragments

  function RunFragments(key: string, wait: bool, s: State, fragments: seq<string>): State
    decreases fragments
  {
    if fragments == [] then s
    else RunFragments(key, wait, Run(key, wait, s, fragments[0]), fragments[1..])
  }

  lemma {:induction false} FragmentsAsOne(key: string, wait: bool, s: State, fragments: seq<string>)
    ensures RunFragments(key, wait, s, fragments) == Run(key, wait, s, Concat(fragments))
    decreases fragments
  {
    if fragments != [] {
      RunAppend(key, wait, s, fragments[0], Concat(fragments[1..]));
      FragmentsAsOne(key, wait, Run(key, wait, s, fragments[0]), fragments[1..]);
    }
  }

  /** Where the stream is cut does not matter: control state, flags and all buffers agree. */
  lemma FragmentationIndependence(key: string, wait: bool, s: State, cut: seq<string>, recut: seq<string>)
    requires Concat(cut) == Concat(recut)
    ensures RunFragments(key, wait, s, cut) == RunFragments(key, wait, s, recut)
  {
    FragmentsAsOne(key, wait, s, cut);
    FragmentsAsOne(key, wait, s, recut);
  }

  lemma {:induction false} ConcatSnoc(fragments: seq<string>, last: string)
    ensures Concat(fragments + [last]) == Concat(fragments) + last
  {
    if fragments == [] {
      assert fragments + [last] == [last];
    } else {
      assert (fragments + [last])[1..] == fragments[1..] + [last];
      ConcatSnoc(fragments[1..], last);
    }
  }

  lemma MainGrowsOnce(key: string, wait: bool, s: State, c: char)
    ensures s.main <= Step(key, wait, s, c).main
  {
  }

  /** What was written to the main buffer stays there. */
  lemma {:induction false} MainGrows(key: string, wait: bool, s: State, text: string)
    ensures s.main <= Run(key, wait, s, text).main
    decreases text
  {
    if text != "" {
      var t := Step(key, wait, s, text[0]);
      MainGrowsOnce(key, wait, s, text[0]);
      MainGrows(key, wait, t, text[1..]);
      PrefixTransitive(s.main, t.main, Run(key, wait, t, text[1..]).main);
    }
  }
}
