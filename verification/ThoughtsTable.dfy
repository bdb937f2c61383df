/** What one character does to the extractor, by its kind and the state (letta/streaming_utils.py:57-233). */
module ThoughtsTable {
  import opened Sequences
  import opened ThoughtsMachine
  import opened ThoughtsReading

  /** Main text goes to the held buffer or the main one. */
  predicate Prints(s: State, t: State, text: string) {
    if s.hold then t.main == s.main && t.held == s.held + text && t.hold
    else t.main == s.main + text && t.held == s.held && !t.hold
  }

  /** An unescaped character outside every string, neither quote nor backslash. */
  lemma OutsideStrings(key: string, wait: bool, s: State, c: char)
    requires !s.escaped && !s.inString && c != '"' && c != '\\'
    ensures var t := Step(key, wait, s, c);
            && !t.escaped && !t.inString && t.currentKey == s.currentKey && t.processed == s.processed
            && (c == '{' ==> Prints(s, t, if s.innerValue then "" else "{") && t.thoughts == s.thoughts && t.control == s.control)
            && (c == '}' ==> Prints(s, t, "}") && t.thoughts == s.thoughts && t.control == End)
            && (c != '{' && c != '}' && s.control == Value ==>
                  && t.control == Value && Prints(s, t, if s.innerValue then "" else [c])
                  && t.thoughts == s.thoughts + if s.innerValue then [c] else "")
            && (c == ':' && s.control == Colon ==>
                  && t.control == Value && t.thoughts == s.thoughts && (t.innerValue <==> s.currentKey == key)
                  && Prints(s, t, if s.currentKey == key then "" else "\"" + s.currentKey + "\":"))
            && (c == ',' && s.control == CommaOrEnd ==>
                  && t.control == Start && t.thoughts == s.thoughts && !t.innerValue
                  && Prints(s, t, if s.innerValue then "" else ","))
            && (c != '{' && c != '}' && s.control != Value && !(c == ':' && s.control == Colon) && !(c == ',' && s.control == CommaOrEnd) ==> t == s)
            && (!(c == ':' && s.control == Colon) && !(c == ',' && s.control == CommaOrEnd) ==> t.innerValue == s.innerValue)
  {
  }

  /** A character of a string, which a backslash escapes: the key's go to the key, a value's to the
      thoughts or the main text. */
  lemma InStrings(key: string, wait: bool, s: State, c: char)
    requires s.inString && (s.escaped || c != '"')
    ensures var t := Step(key, wait, s, c);
            && t.inString && t.control == s.control && t.innerValue == s.innerValue && t.processed == s.processed
            && (t.escaped <==> c == '\\' && !s.escaped)
            && t.currentKey == s.currentKey + (if s.control == Key then [c] else "")
            && t.thoughts == s.thoughts + (if s.control == Value && s.innerValue then [c] else "")
            && Prints(s, t, if s.control == Value && !s.innerValue then [c] else "")
  {
  }

  /** An opening quote starts a key, or a value; where main text is held back, the key behind finished
      inner thoughts releases it. */
  lemma OpeningQuote(key: string, wait: bool, s: State)
    requires !s.escaped && !s.inString
    ensures var t := Step(key, wait, s, '"');
            && t.inString && !t.escaped && t.thoughts == s.thoughts && t.innerValue == s.innerValue && t.processed == s.processed
            && (s.control == Start || s.control == CommaOrEnd ==>
                  && t.control == Key && t.currentKey == ""
                  && (if wait && s.hold && s.processed then t.main == s.main + s.held && t.held == "" && !t.hold else Prints(s, t, "")))
            && (s.control != Start && s.control != CommaOrEnd ==>
                  && t.control == s.control && t.currentKey == s.currentKey
                  && Prints(s, t, if s.control == Value && !s.innerValue then "\"" else ""))
  {
  }

  /** A closing quote ends a key, or a value; inner thoughts are finished then. */
  lemma ClosingQuote(key: string, wait: bool, s: State)
    requires !s.escaped && s.inString
    ensures var t := Step(key, wait, s, '"');
            && !t.inString && !t.escaped && t.thoughts == s.thoughts && t.innerValue == s.innerValue && t.currentKey == s.currentKey
            && t.control == (if s.control == Key then Colon else if s.control == Value then CommaOrEnd else s.control)
            && t.processed == (s.processed || (s.control == Value && s.innerValue))
            && Prints(s, t, if s.control == Value && !s.innerValue then "\"" else "")
  {
  }

  /** Outside strings an escape pair, where one stands there at all, is printed unless inside thoughts. */
  lemma EscapesOutside(key: string, wait: bool, s: State, c: char)
    requires !s.inString && (s.escaped || c == '\\')
    ensures var t := Step(key, wait, s, c);
            && t.control == s.control && !t.inString && t.thoughts == s.thoughts && t.currentKey == s.currentKey
            && (t.escaped <==> !s.escaped) && Prints(s, t, if s.innerValue then "" else [c])
  {
  }

  /** An empty object as a value is printed. */
  lemma EmptyObjectPrinted(key: string, s: State)
    requires Idle(s, Value) && !s.innerValue
    ensures Then(key, s, "{}") == s.(main := s.main + "{}", control := End)
  {
    RawCopied(key, s, "{");
    var t := Then(key, s, "{");
    RunAppend(key, false, s, "{", "}");
    OneChar(key, t, '}');
    Regroup(s.main, "{", "}");
    assert "{" + "}" == "{}";
  }
}
