/** How the plain extractor reads the pieces of a flat JSON object. */
module ThoughtsReading {
  import opened Sequences
  import opened ThoughtsMachine
  import opened FlatJson

  predicate IsThought(key: string, m: Member) { m.key == key }

  /** How a kept member is printed: whitespace survives only after the colon and after a
      value that is not a string. */
  function Kept(m: Member): string {
    KeyColon(m.key) + m.post + ValueText(m.value) + (if m.value.Raw? then m.trail else "")
  }

  function Then(key: string, s: State, text: string): State { Run(key, false, s, text) }

  lemma OneChar(key: string, s: State, c: char)
    ensures Then(key, s, [c]) == Step(key, false, s, c)
  {
    assert [c][1..] == "";
    assert Run(key, false, Step(key, false, s, c), "") == Step(key, false, s, c);
  }

  predicate Idle(s: State, control: Control) {
    s.control == control && !s.inString && !s.escaped && !s.hold
  }

  /** Whitespace between tokens is dropped. */
  lemma {:induction false} WsDropped(key: string, s: State, ws: string)
    requires IsWs(ws) && !s.inString && !s.escaped && s.control != Value
    ensures Then(key, s, ws) == s
    decreases ws
  {
    if ws != "" {
      assert Step(key, false, s, ws[0]) == s;
      WsDropped(key, s, ws[1..]);
    }
  }

  /** After a colon everything plain is copied to the sink of the value, and so is an opening brace
      unless the value is inner thoughts. */
  lemma {:induction false} RawCopied(key: string, s: State, text: string)
    requires Idle(s, Value)
    requires forall i :: 0 <= i < |text| ==> IsPlainChar(text[i]) || (text[i] == '{' && !s.innerValue)
    ensures Then(key, s, text)
         == if s.innerValue then s.(thoughts := s.thoughts + text) else s.(main := s.main + text)
    decreases text
  {
    if text == "" {
      assert s.thoughts + text == s.thoughts && s.main + text == s.main;
    } else {
      RawCopied(key, Step(key, false, s, text[0]), text[1..]);
      assert text == [text[0]] + text[1..];
      Regroup(s.main, [text[0]], text[1..]);
      Regroup(s.thoughts, [text[0]], text[1..]);
    }
  }

  /** Where the characters of the current string go. */
  function WithString(s: State, text: string): State {
    if s.control == Key then s.(currentKey := s.currentKey + text)
    else if s.innerValue then s.(thoughts := s.thoughts + text)
    else s.(main := s.main + text)
  }

  lemma WithStringAppend(s: State, a: string, b: string)
    ensures WithString(WithString(s, a), b) == WithString(s, a + b)
  {
    Regroup(s.currentKey, a, b);
    Regroup(s.thoughts, a, b);
    Regroup(s.main, a, b);
  }

  lemma StringCharIs(key: string, s: State, c: char)
    requires s.inString && !s.escaped && !s.hold && (s.control == Key || s.control == Value) && c != '"' && c != '\\'
    ensures Step(key, false, s, c) == WithString(s, [c])
  {
  }

  lemma EscapePairIs(key: string, s: State, pair: string)
    requires s.inString && !s.escaped && !s.hold && (s.control == Key || s.control == Value)
    requires |pair| == 2 && pair[0] == '\\'
    ensures Then(key, s, pair) == WithString(s, pair)
  {
    var t := Step(key, false, s, pair[0]);
    assert t == WithString(s, [pair[0]]).(escaped := true);
    assert pair[1..] == [pair[1]] && pair == [pair[0]] + [pair[1]];
    assert Then(key, s, pair) == Then(key, t, [pair[1]]);
    OneChar(key, t, pair[1]);
    assert Step(key, false, t, pair[1]) == WithString(t.(escaped := false), [pair[1]]);
    WithStringAppend(s, [pair[0]], [pair[1]]);
  }

  lemma {:induction false} BodyCopied(key: string, s: State, body: string)
    requires IsBody(body) && s.inString && !s.escaped && !s.hold && (s.control == Key || s.control == Value)
    ensures Then(key, s, body) == WithString(s, body)
    decreases body
  {
    if body == "" {
      assert s.currentKey + body == s.currentKey && s.main + body == s.main && s.thoughts + body == s.thoughts;
    } else {
      var n := if body[0] == '\\' then 2 else 1;
      assert body == body[..n] + body[n..];
      RunAppend(key, false, s, body[..n], body[n..]);
      if n == 2 {
        EscapePairIs(key, s, body[..2]);
      } else {
        OneChar(key, s, body[0]);
        assert body[..1] == [body[0]];
        StringCharIs(key, s, body[0]);
      }
      BodyCopied(key, WithString(s, body[..n]), body[n..]);
      WithStringAppend(s, body[..n], body[n..]);
    }
  }

  lemma KeyRead(key: string, s: State, body: string)
    requires IsBody(body) && Idle(s, Start)
    ensures Then(key, s, Quoted(body)) == s.(control := Colon, currentKey := body)
  {
    var t := s.(inString := true, control := Key, currentKey := "");
    OneChar(key, s, '"');
    BodyCopied(key, t, body);
    assert "" + body == body;
    OneChar(key, t.(currentKey := body), '"');
    RunAppend(key, false, s, "\"", body);
    RunAppend(key, false, s, "\"" + body, "\"");
  }

  lemma StringRead(key: string, s: State, body: string)
    requires IsBody(body) && Idle(s, Value)
    ensures Then(key, s, Quoted(body))
         == if s.innerValue then s.(control := CommaOrEnd, processed := true, thoughts := s.thoughts + body)
            else s.(control := CommaOrEnd, main := s.main + Quoted(body))
  {
    var t := if s.innerValue then s.(inString := true) else s.(inString := true, main := s.main + "\"");
    OneChar(key, s, '"');
    BodyCopied(key, t, body);
    OneChar(key, WithString(t, body), '"');
    RunAppend(key, false, s, "\"", body);
    RunAppend(key, false, s, "\"" + body, "\"");
    Regroup(s.main, "\"", body);
    Regroup(s.main, "\"" + body, "\"");
  }

  function HeadText(m: Member): string { m.pre + Quoted(m.key) + m.mid + ":" }

  lemma HeadRead(key: string, s: State, m: Member)
    requires IsMember(m) && Idle(s, Start)
    ensures Then(key, s, HeadText(m))
         == s.(control := Value, currentKey := m.key, innerValue := IsThought(key, m),
               main := s.main + if IsThought(key, m) then "" else KeyColon(m.key))
  {
    var t := s.(control := Colon, currentKey := m.key);
    WsDropped(key, s, m.pre);
    KeyRead(key, s, m.key);
    WsDropped(key, t, m.mid);
    OneChar(key, t, ':');
    RunAppend(key, false, s, m.pre, Quoted(m.key));
    RunAppend(key, false, s, m.pre + Quoted(m.key), m.mid);
    RunAppend(key, false, s, m.pre + Quoted(m.key) + m.mid, ":");
    assert s.main + "" == s.main;
  }

  lemma WsIsPlain(ws: string)
    requires IsWs(ws)
    ensures forall i :: 0 <= i < |ws| ==> IsPlainChar(ws[i])
  {
    forall i | 0 <= i < |ws| ensures IsPlainChar(ws[i]) { assert IsWsChar(ws[i]); }
  }

  lemma StrKept(main: string, m: Member)
    requires m.value.Str?
    ensures main + KeyColon(m.key) + m.post + Quoted(m.value.body) == main + Kept(m)
  {
    var shown := KeyColon(m.key) + m.post;
    Regroup(main, KeyColon(m.key), m.post);
    Regroup(main, shown, Quoted(m.value.body));
    assert shown + Quoted(m.value.body) + "" == shown + Quoted(m.value.body);
  }

  /** A member whose value is a string, read from between members. */
  lemma StrMemberRead(key: string, s: State, m: Member)
    requires IsMember(m) && Idle(s, Start) && m.value.Str?
    ensures Then(key, s, MemberText(m))
         == if IsThought(key, m)
            then s.(control := CommaOrEnd, currentKey := m.key, innerValue := true, processed := true,
                    thoughts := s.thoughts + (m.post + m.value.body))
            else s.(control := CommaOrEnd, currentKey := m.key, innerValue := false, main := s.main + Kept(m))
  {
    HeadRead(key, s, m);
    var t := Then(key, s, HeadText(m));
    WsIsPlain(m.post);
    RawCopied(key, t, m.post);
    var u := Then(key, t, m.post);
    StringRead(key, u, m.value.body);
    var v := Then(key, u, Quoted(m.value.body));
    WsDropped(key, v, m.trail);
    RunAppend(key, false, s, HeadText(m), m.post);
    RunAppend(key, false, s, HeadText(m) + m.post, Quoted(m.value.body));
    RunAppend(key, false, s, HeadText(m) + m.post + Quoted(m.value.body), m.trail);
    assert MemberText(m) == HeadText(m) + m.post + Quoted(m.value.body) + m.trail;
    if IsThought(key, m) {
      assert s.main + "" == s.main;
      Regroup(s.thoughts, m.post, m.value.body);
    } else {
      StrKept(s.main, m);
    }
  }

  /** A kept member with another value: the machine stays in the value. */
  lemma RawMemberRead(key: string, s: State, m: Member)
    requires IsMember(m) && Idle(s, Start) && m.value.Raw? && !IsThought(key, m)
    ensures Then(key, s, MemberText(m))
         == s.(control := Value, currentKey := m.key, innerValue := false, main := s.main + Kept(m))
  {
    HeadRead(key, s, m);
    var text := m.post + m.value.text + m.trail;
    WsIsPlain(m.post);
    WsIsPlain(m.trail);
    RawCopied(key, Then(key, s, HeadText(m)), text);
    RunAppend(key, false, s, HeadText(m), text);
    assert MemberText(m) == HeadText(m) + text by {
      Regroup(HeadText(m), m.post, m.value.text);
      Regroup(HeadText(m), m.post + m.value.text, m.trail);
    }
    assert s.main + KeyColon(m.key) + text == s.main + Kept(m) by {
      Regroup(KeyColon(m.key), m.post, m.value.text);
      Regroup(KeyColon(m.key), m.post + m.value.text, m.trail);
      Regroup(s.main, KeyColon(m.key), text);
    }
  }
}
