/** What a waiting extractor hands out for a flat object
    (letta/streaming_utils.py:19, 49-50, 118-123). */
module ThoughtsDelivery {
  import opened Sequences
  import opened ThoughtsMachine
  import opened ThoughtsWaiting
  import opened ThoughtsReading
  import opened ThoughtsMeaning
  import opened FlatJson

  lemma {:induction false} UnlocksAppend(key: string, s: State, a: string, b: string)
    ensures Unlocks(key, s, a + b) <==> Unlocks(key, s, a) || Unlocks(key, Then(key, s, a), b)
    decreases a
  {
    if a == "" {
      assert a + b == b;
    } else {
      assert (a + b)[0] == a[0] && (a + b)[1..] == a[1..] + b;
      UnlocksAppend(key, Step(key, false, s, a[0]), a[1..], b);
    }
  }

  /** Nothing unlocks before an inner-thoughts string has ended, and one that has stays ended. */
  lemma {:induction false} LockedUntilProcessed(key: string, s: State, text: string)
    ensures s.processed || Unlocks(key, s, text) ==> Then(key, s, text).processed
    decreases text
  {
    if text != "" {
      LockedUntilProcessed(key, Step(key, false, s, text[0]), text[1..]);
    }
  }

  lemma {:induction false} LockedWithoutQuotes(key: string, s: State, text: string)
    requires forall i :: 0 <= i < |text| ==> text[i] != '"'
    ensures !Unlocks(key, s, text)
    decreases text
  {
    if text != "" {
      LockedWithoutQuotes(key, Step(key, false, s, text[0]), text[1..]);
    }
  }

  lemma NextMemberUnlocks(key: string, s: State, ms: seq<Member>)
    requires Between(s) && s.processed && ms != [] && IsMember(ms[0])
    ensures Unlocks(key, s, MembersText(ms) + "}")
  {
    var tail := MembersStart(ms);
    var pre := ms[0].pre;
    var rest := "\"" + (ms[0].key + "\"" + tail + "}");
    assert MembersText(ms) + "}" == pre + rest;
    WsDropped(key, s, pre);
    UnlocksAppend(key, s, pre, rest);
    assert rest[0] == '"';
  }

  function ToBody(m: Member): string
    requires m.value.Str?
  {
    HeadText(m) + m.post + "\"" + m.value.body
  }

  /** Before the closing quote of inner thoughts the machine is in their string. */
  lemma ThoughtOpen(key: string, s: State, m: Member)
    requires Between(s) && !s.processed && IsMember(m) && IsThought(key, m) && m.value.Str?
    ensures var v := Then(key, s, ToBody(m)); v.inString && !v.escaped && !v.processed && v.control == Value
  {
    HeadRead(key, s, m);
    WsIsPlain(m.post);
    var t := Then(key, s, HeadText(m));
    RawCopied(key, t, m.post);
    var u := Then(key, t, m.post);
    OneChar(key, u, '"');
    BodyCopied(key, u.(inString := true), m.value.body);
    RunAppend(key, false, s, HeadText(m), m.post);
    RunAppend(key, false, s, HeadText(m) + m.post, "\"");
    RunAppend(key, false, s, HeadText(m) + m.post + "\"", m.value.body);
  }

  lemma LastThoughtLocked(key: string, s: State, m: Member)
    requires Between(s) && !s.processed && IsMember(m) && IsThought(key, m) && m.value.Str?
    ensures !Unlocks(key, s, MemberText(m) + "}")
  {
    ThoughtOpen(key, s, m);
    LockedUntilProcessed(key, s, ToBody(m));
    ClosingLocked(key, Then(key, s, ToBody(m)), m.trail);
    UnlocksAppend(key, s, ToBody(m), "\"" + (m.trail + "}"));
    ThoughtSplit(m);
  }

  lemma ThoughtSplit(m: Member)
    requires m.value.Str?
    ensures MemberText(m) + "}" == ToBody(m) + ("\"" + (m.trail + "}"))
  {
  }

  lemma ClosingLocked(key: string, v: State, trail: string)
    requires v.inString && !v.processed && IsWs(trail)
    ensures !Unlocks(key, v, "\"" + (trail + "}"))
  {
    var tail := trail + "}";
    WsIsPlain(trail);
    assert ("\"" + tail)[0] == '"' && ("\"" + tail)[1..] == tail;
    LockedWithoutQuotes(key, Step(key, false, v, '"'), tail);
  }

  lemma LastOtherLocked(key: string, s: State, m: Member)
    requires Between(s) && !s.processed && IsMember(m) && !IsThought(key, m)
    ensures !Unlocks(key, s, MemberText(m) + "}")
  {
    if m.value.Str? { StrMemberRead(key, s, m); } else { RawMemberRead(key, s, m); }
    var t := Then(key, s, MemberText(m));
    LockedUntilProcessed(key, s, MemberText(m));
    LockedWithoutQuotes(key, t, "}");
    UnlocksAppend(key, s, MemberText(m), "}");
  }

  predicate ThoughtBeforeLast(key: string, ms: seq<Member>) {
    exists i :: 0 <= i < |ms| - 1 && IsThought(key, ms[i])
  }

  lemma UnlocksExactly(key: string, ms: seq<Member>)
    requires (forall m <- ms :: IsMember(m)) && ThoughtsAreStrings(key, ms) && OnlyLastMayBeRaw(ms)
    ensures Unlocks(key, Opened, MembersText(ms) + "}") <==> ThoughtBeforeLast(key, ms)
  {
    if ms == [] {
      LockedWithoutQuotes(key, Opened, MembersText(ms) + "}");
    } else if ThoughtBeforeLast(key, ms) {
      var i :| 0 <= i < |ms| - 1 && IsThought(key, ms[i]);
      var p := PrefixText(ms[..i + 1]);
      MembersSplit(ms, i + 1);
      PrefixRead(key, Opened, ms[..i + 1]);
      assert ms[i] in ms[..i + 1];
      NextMemberUnlocks(key, Then(key, Opened, p), ms[i + 1..]);
      Regroup(p, MembersText(ms[i + 1..]), "}");
      UnlocksAppend(key, Opened, p, MembersText(ms[i + 1..]) + "}");
    } else {
      var n := |ms| - 1;
      var p := PrefixText(ms[..n]);
      var s := Then(key, Opened, p);
      PrefixRead(key, Opened, ms[..n]);
      LastSplit(ms, n);
      assert IsMember(ms[n]);
      LockedUntilProcessed(key, Opened, p);
      if IsThought(key, ms[n]) { LastThoughtLocked(key, s, ms[n]); } else { LastOtherLocked(key, s, ms[n]); }
      UnlocksAppend(key, Opened, p, MemberText(ms[n]) + "}");
    }
  }

  /** For an extractable object the waiting extractor gives the same inner thoughts and the
      same main text as the plain one, and hands the text out exactly when some other member
      follows inner thoughts: an object without inner thoughts is never handed out. */
  lemma WaitingDelivery(key: string, open: string, ms: seq<Member>)
    requires IsObject(open, ms) && ThoughtsAreStrings(key, ms) && Extractable(key, ms)
    ensures var w := Run(key, true, Init(true), ObjectText(open, ms));
            && w.control == End
            && w.thoughts == WantedThoughts(key, ms)
            && w.main == (if ThoughtBeforeLast(key, ms) then WantedMain(key, ms) else "")
            && w.held == (if ThoughtBeforeLast(key, ms) then "" else WantedMain(key, ms))
  {
    var text := ObjectText(open, ms);
    var head := "{" + open;
    ExtractionExact(key, open, ms);
    WaitingRefinesPlain(key, text);
    UnlocksExactly(key, ms);
    assert text == head + (MembersText(ms) + "}") by { Regroup(head, MembersText(ms), "}"); }
    BraceRead(key, open);
    LockedUntilProcessed(key, Init(false), head);
    UnlocksAppend(key, Init(false), head, MembersText(ms) + "}");
  }
}
