/** What the extractor means on a flat JSON object (letta/streaming_utils.py:38-249). */
module ThoughtsMeaning {
  import opened Sequences
  import opened ThoughtsMachine
  import opened ThoughtsReading
  import opened FlatJson

  // ------------------------------------------------------------ what is asked for

  /** The members other than inner thoughts, each followed by a comma. */
  function KeptWithCommas(key: string, ms: seq<Member>): string {
    if ms == [] then ""
    else (if IsThought(key, ms[0]) then "" else Kept(ms[0]) + ",") + KeptWithCommas(key, ms[1..])
  }

  /** The members other than inner thoughts, joined by commas. */
  function KeptJoined(key: string, ms: seq<Member>): string {
    var all := KeptWithCommas(key, ms);
    if all == "" then "" else all[..|all| - 1]
  }

  /** The object without its inner-thoughts members. */
  function WantedMain(key: string, ms: seq<Member>): string {
    "{" + KeptJoined(key, ms) + "}"
  }

  /** The raw bodies of the inner-thoughts strings, one after the other. */
  function WantedThoughts(key: string, ms: seq<Member>): string {
    if ms == [] then ""
    else (if IsThought(key, ms[0]) && ms[0].value.Str? then ms[0].value.body else "") + WantedThoughts(key, ms[1..])
  }

  predicate Extracted(key: string, ms: seq<Member>, final: State) {
    final.control == End && final.main == WantedMain(key, ms) && final.thoughts == WantedThoughts(key, ms)
  }

  /** Inner thoughts are strings: for others there is no body to ask for. */
  predicate ThoughtsAreStrings(key: string, ms: seq<Member>) {
    forall m <- ms :: IsThought(key, m) ==> m.value.Str?
  }

  // ------------------------------------------------------- when it is delivered

  predicate OnlyLastMayBeRaw(ms: seq<Member>) {
    forall i :: 0 <= i < |ms| - 1 ==> ms[i].value.Str?
  }

  predicate NoTrailingThought(key: string, ms: seq<Member>) {
    ms != [] && IsThought(key, ms[|ms| - 1]) ==> forall m <- ms :: IsThought(key, m)
  }

  predicate ThoughtsTouchColon(key: string, ms: seq<Member>) {
    forall m <- ms :: IsThought(key, m) ==> m.post == ""
  }

  predicate Extractable(key: string, ms: seq<Member>) {
    OnlyLastMayBeRaw(ms) && NoTrailingThought(key, ms) && ThoughtsTouchColon(key, ms)
  }

  // ------------------------------------------------------------ members in a row

  /** Members, each followed by a comma. */
  function PrefixText(ms: seq<Member>): string {
    if ms == [] then "" else MemberText(ms[0]) + "," + PrefixText(ms[1..])
  }

  lemma {:induction false} MembersSplit(ms: seq<Member>, k: nat)
    requires k < |ms|
    ensures MembersText(ms) == PrefixText(ms[..k]) + MembersText(ms[k..])
  {
    if k == 0 {
      assert ms[..0] == [] && ms[0..] == ms;
    } else {
      MembersSplit(ms[1..], k - 1);
      assert ms[..k][1..] == ms[1..][..k - 1] && ms[1..][k - 1..] == ms[k..];
      Regroup(MemberText(ms[0]) + ",", PrefixText(ms[1..][..k - 1]), MembersText(ms[k..]));
    }
  }

  lemma {:induction false} KeptSplit(key: string, a: seq<Member>, b: seq<Member>)
    ensures KeptWithCommas(key, a + b) == KeptWithCommas(key, a) + KeptWithCommas(key, b)
  {
    if a == [] {
      assert a + b == b;
    } else {
      assert (a + b)[1..] == a[1..] + b;
      KeptSplit(key, a[1..], b);
      Regroup(if IsThought(key, a[0]) then "" else Kept(a[0]) + ",", KeptWithCommas(key, a[1..]), KeptWithCommas(key, b));
    }
  }

  /** What reaches the inner-thoughts buffer: the bodies with the whitespace before them. */
  function Posted(key: string, ms: seq<Member>): string {
    if ms == [] then ""
    else (if IsThought(key, ms[0]) && ms[0].value.Str? then ms[0].post + ms[0].value.body else "") + Posted(key, ms[1..])
  }

  lemma {:induction false} PostedSplit(key: string, a: seq<Member>, b: seq<Member>)
    ensures Posted(key, a + b) == Posted(key, a) + Posted(key, b)
  {
    if a == [] {
      assert a + b == b;
    } else {
      assert (a + b)[1..] == a[1..] + b;
      PostedSplit(key, a[1..], b);
      Regroup(if IsThought(key, a[0]) && a[0].value.Str? then a[0].post + a[0].value.body else "",
              Posted(key, a[1..]), Posted(key, b));
    }
  }

  lemma {:induction false} PostedIsWanted(key: string, ms: seq<Member>)
    requires ThoughtsAreStrings(key, ms)
    ensures |Posted(key, ms)| >= |WantedThoughts(key, ms)|
    ensures Posted(key, ms) == WantedThoughts(key, ms) <==> ThoughtsTouchColon(key, ms)
    ensures |Posted(key, ms)| == |WantedThoughts(key, ms)| ==> ThoughtsTouchColon(key, ms)
  {
    if ms != [] {
      PostedIsWanted(key, ms[1..]);
      if ThoughtsTouchColon(key, ms) {
        assert ThoughtsTouchColon(key, ms[1..]);
      } else if ThoughtsTouchColon(key, ms[1..]) {
        assert forall m <- ms :: m == ms[0] || m in ms[1..];
        assert IsThought(key, ms[0]) && |ms[0].post| > 0;
      }
    }
  }

  /** A machine standing between members, with nothing pending. */
  predicate Between(s: State) { Idle(s, Start) && !s.innerValue }

  lemma StrAndComma(key: string, s: State, m: Member)
    requires IsMember(m) && Between(s) && m.value.Str?
    ensures var t := Then(key, s, MemberText(m) + ",");
            && Between(t)
            && t.processed == (s.processed || IsThought(key, m))
            && t.main == s.main + KeptWithCommas(key, [m])
            && t.thoughts == s.thoughts + Posted(key, [m])
  {
    StrMemberRead(key, s, m);
    RunAppend(key, false, s, MemberText(m), ",");
    OneChar(key, Then(key, s, MemberText(m)), ',');
    assert [m][1..] == [];
    assert KeptWithCommas(key, [m]) == if IsThought(key, m) then "" else Kept(m) + ",";
    assert Posted(key, [m]) == if IsThought(key, m) then m.post + m.value.body else "";
  }

  lemma {:induction false} PrefixRead(key: string, s: State, ms: seq<Member>)
    requires Between(s) && forall m <- ms :: IsMember(m) && m.value.Str?
    ensures var t := Then(key, s, PrefixText(ms));
            && Between(t)
            && t.processed == (s.processed || exists m <- ms :: IsThought(key, m))
            && t.main == s.main + KeptWithCommas(key, ms)
            && t.thoughts == s.thoughts + Posted(key, ms)
    decreases ms
  {
    if ms != [] {
      var first := MemberText(ms[0]) + ",";
      var t := Then(key, s, first);
      StrAndComma(key, s, ms[0]);
      PrefixRead(key, t, ms[1..]);
      RunAppend(key, false, s, first, PrefixText(ms[1..]));
      assert ms == [ms[0]] + ms[1..];
      KeptSplit(key, [ms[0]], ms[1..]);
      PostedSplit(key, [ms[0]], ms[1..]);
      Regroup(s.main, KeptWithCommas(key, [ms[0]]), KeptWithCommas(key, ms[1..]));
      Regroup(s.thoughts, Posted(key, [ms[0]]), Posted(key, ms[1..]));
    }
  }

  const Opened := Init(false).(main := "{")

  lemma BraceRead(key: string, open: string)
    requires IsWs(open)
    ensures Then(key, Init(false), "{" + open) == Opened
  {
    OneChar(key, Init(false), '{');
    assert "" + "{" == "{";
    WsDropped(key, Opened, open);
    RunAppend(key, false, Init(false), "{", open);
  }

  lemma OpenRead(key: string, open: string, ms: seq<Member>)
    requires IsWs(open)
    ensures Then(key, Init(false), ObjectText(open, ms)) == Then(key, Opened, MembersText(ms) + "}")
  {
    BraceRead(key, open);
    RunAppend(key, false, Init(false), "{" + open, MembersText(ms) + "}");
    Regroup("{" + open, MembersText(ms), "}");
  }

  // --------------------------------------------------- objects read to the last member

  lemma LastRead(key: string, s: State, m: Member)
    requires IsMember(m) && Between(s) && (IsThought(key, m) ==> m.value.Str?)
    ensures var t := Then(key, s, MemberText(m) + "}");
            && t.control == End
            && t.main == s.main + (if IsThought(key, m) then "" else Kept(m)) + "}"
            && t.thoughts == s.thoughts + Posted(key, [m])
  {
    if m.value.Str? { StrMemberRead(key, s, m); } else { RawMemberRead(key, s, m); }
    RunAppend(key, false, s, MemberText(m), "}");
    OneChar(key, Then(key, s, MemberText(m)), '}');
    assert [m][1..] == [];
    assert Posted(key, [m]) == if IsThought(key, m) then m.post + m.value.body else "";
  }

  lemma LastSplit(ms: seq<Member>, n: nat)
    requires |ms| == n + 1
    ensures MembersText(ms) + "}" == PrefixText(ms[..n]) + (MemberText(ms[n]) + "}")
  {
    MembersSplit(ms, n);
    var last := ms[n..];
    assert |last| == 1 && last[0] == ms[n];
    assert MembersText(last) == MemberText(ms[n]);
    Regroup(PrefixText(ms[..n]), MemberText(ms[n]), "}");
  }

  /** The value of the whole text, when every value but the last is a string. */
  lemma InStepRead(key: string, ms: seq<Member>)
    requires (forall m <- ms :: IsMember(m)) && ThoughtsAreStrings(key, ms) && OnlyLastMayBeRaw(ms) && ms != []
    ensures var n := |ms| - 1;
            var t := Then(key, Opened, MembersText(ms) + "}");
            && t.control == End
            && t.main == "{" + KeptWithCommas(key, ms[..n]) + (if IsThought(key, ms[n]) then "" else Kept(ms[n])) + "}"
            && t.thoughts == Posted(key, ms)
  {
    var n := |ms| - 1;
    var s := Then(key, Opened, PrefixText(ms[..n]));
    LastSplit(ms, n);
    AsSnoc(ms, n);
    RunAppend(key, false, Opened, PrefixText(ms[..n]), MemberText(ms[n]) + "}");
    PostedSplit(key, ms[..n], [ms[n]]);
    assert IsMember(ms[n]);
    PrefixRead(key, Opened, ms[..n]);
    LastRead(key, s, ms[n]);
    assert "" + Posted(key, ms[..n]) == Posted(key, ms[..n]);
  }

  lemma {:induction false} NothingKept(key: string, ms: seq<Member>)
    ensures KeptWithCommas(key, ms) == "" <==> forall m <- ms :: IsThought(key, m)
  {
    if ms != [] {
      NothingKept(key, ms[1..]);
      assert forall m <- ms :: m == ms[0] || m in ms[1..];
    }
  }

  lemma KeptOfLast(key: string, ms: seq<Member>)
    requires ms != []
    ensures var n := |ms| - 1;
            KeptWithCommas(key, ms)
            == KeptWithCommas(key, ms[..n]) + if IsThought(key, ms[n]) then "" else Kept(ms[n]) + ","
  {
    var n := |ms| - 1;
    AsSnoc(ms, n);
    assert [ms[n]][1..] == [];
    KeptSplit(key, ms[..n], [ms[n]]);
  }

  /** The main text is the wanted one exactly when no trailing comma is left behind. */
  lemma MainExact(key: string, ms: seq<Member>)
    requires ms != []
    ensures var n := |ms| - 1;
            "{" + KeptWithCommas(key, ms[..n]) + (if IsThought(key, ms[n]) then "" else Kept(ms[n])) + "}" == WantedMain(key, ms)
            <==> NoTrailingThought(key, ms)
  {
    var n := |ms| - 1;
    var rest := KeptWithCommas(key, ms[..n]);
    KeptOfLast(key, ms);
    if IsThought(key, ms[n]) {
      NothingKept(key, ms);
      assert "{" + rest + "" + "}" == "{" + rest + "}";
    } else {
      Regroup(rest, Kept(ms[n]), ",");
      Regroup("{", rest, Kept(ms[n]));
    }
  }

  lemma InStepExact(key: string, ms: seq<Member>)
    requires (forall m <- ms :: IsMember(m)) && ThoughtsAreStrings(key, ms) && OnlyLastMayBeRaw(ms) && ms != []
    ensures Extracted(key, ms, Then(key, Opened, MembersText(ms) + "}")) <==> Extractable(key, ms)
  {
    InStepRead(key, ms);
    PostedIsWanted(key, ms);
    MainExact(key, ms);
  }

  // ------------------------------------------- objects with another value too early

  /** Between values nothing visible starts with a colon. */
  predicate Quiet(s: State) {
    && !s.hold
    && !(s.control == Value && !s.innerValue)
    && (s.escaped ==> s.inString || s.innerValue)
  }

  lemma QuietStep(key: string, s: State, c: char)
    requires Quiet(s)
    ensures var t := Step(key, false, s, c);
            (t.main == s.main && Quiet(t)) || (exists x :: t.main == s.main + x && x != "" && x[0] != ':')
  {
    var t := Step(key, false, s, c);
    if c == ':' && s.control == Colon && !s.escaped && !s.inString {
      var x := KeyColon(s.currentKey);
      assert x[0] == '"';
    } else {
      var x := [c];
      assert x[0] == c;
      assert t.main == s.main || t.main == s.main + x;
    }
  }

  lemma {:induction false} NoColonNext(key: string, s: State, text: string) returns (x: string)
    requires Quiet(s)
    ensures Then(key, s, text).main == s.main + x
    ensures x == "" || x[0] != ':'
    decreases text
  {
    if text == "" {
      x := "";
    } else {
      QuietStep(key, s, text[0]);
      var t := Step(key, false, s, text[0]);
      if t.main == s.main && Quiet(t) {
        x := NoColonNext(key, t, text[1..]);
      } else {
        var y :| t.main == s.main + y && y != "" && y[0] != ':';
        MainGrows(key, false, t, text[1..]);
        var m := Then(key, t, text[1..]).main;
        x := m[|s.main|..];
        assert m[..|t.main|] == t.main;
        assert m[|s.main|] == t.main[|s.main|] == y[0];
      }
    }
  }

  /** What is kept of some members starts with a key and a colon. */
  lemma {:induction false} FirstKept(key: string, ms: seq<Member>) returns (body: string, rest: string)
    requires (forall m <- ms :: IsMember(m)) && KeptWithCommas(key, ms) != ""
    ensures IsBody(body) && rest != ""
    ensures KeptWithCommas(key, ms) == KeyColon(body) + rest
  {
    if IsThought(key, ms[0]) {
      body, rest := FirstKept(key, ms[1..]);
      assert "" + KeptWithCommas(key, ms[1..]) == KeptWithCommas(key, ms[1..]);
    } else {
      var m := ms[0];
      assert IsMember(m);
      body := m.key;
      var tail := m.post + ValueText(m.value) + (if m.value.Raw? then m.trail else "");
      rest := tail + "," + KeptWithCommas(key, ms[1..]);
      assert Kept(m) == KeyColon(body) + tail by {
        Regroup(KeyColon(body), m.post, ValueText(m.value));
        Regroup(KeyColon(body), m.post + ValueText(m.value), if m.value.Raw? then m.trail else "");
      }
      Regroup(KeyColon(body), tail, ",");
      Regroup(KeyColon(body), tail + ",", KeptWithCommas(key, ms[1..]));
    }
  }

  lemma FirstRaw(ms: seq<Member>) returns (k: nat)
    requires !OnlyLastMayBeRaw(ms)
    ensures k < |ms| - 1 && ms[k].value.Raw?
    ensures forall m <- ms[..k] :: m.value.Str?
  {
    k := 0;
    while ms[k].value.Str?
      invariant k < |ms| - 1
      invariant forall i :: 0 <= i < k ==> ms[i].value.Str?
      invariant exists i :: k <= i < |ms| - 1 && ms[i].value.Raw?
      decreases |ms| - k
    {
      k := k + 1;
    }
  }

  lemma MembersStart(ms: seq<Member>) returns (tail: string)
    requires ms != []
    ensures MembersText(ms) == ms[0].pre + Quoted(ms[0].key) + tail
  {
    var m := ms[0];
    var value := m.mid + ":" + m.post + ValueText(m.value) + m.trail;
    var head := m.pre + Quoted(m.key);
    assert MemberText(m) == head + value by {
      Regroup(head, m.mid, ":");
      Regroup(head, m.mid + ":", m.post);
      Regroup(head, m.mid + ":" + m.post, ValueText(m.value));
      Regroup(head, m.mid + ":" + m.post + ValueText(m.value), m.trail);
    }
    if |ms| == 1 {
      tail := value;
    } else {
      tail := value + ("," + MembersText(ms[1..]));
      Regroup(head, value, "," + MembersText(ms[1..]));
      Regroup(MemberText(m), ",", MembersText(ms[1..]));
    }
  }

  /** After a kept value that is no string, the comma and the next key are taken for more of
      that value. */
  lemma NextKeySwallowed(key: string, s: State, next: Member, tail: string) returns (x: string)
    requires Idle(s, Value) && !s.innerValue && IsMember(next)
    ensures Then(key, s, "," + next.pre + Quoted(next.key) + tail).main
         == s.main + ("," + next.pre + Quoted(next.key) + x)
    ensures x == "" || x[0] != ':'
  {
    var copied := "," + next.pre;
    WsIsPlain(next.pre);
    RawCopied(key, s, copied);
    var t := Then(key, s, copied);
    StringRead(key, t, next.key);
    var u := Then(key, t, Quoted(next.key));
    x := NoColonNext(key, u, tail);
    RunAppend(key, false, s, copied, Quoted(next.key));
    RunAppend(key, false, s, copied + Quoted(next.key), tail);
    Regroup(s.main, copied, Quoted(next.key));
    Regroup(s.main, copied + Quoted(next.key), x);
  }

  /** Text that goes on with a swallowed key is not text that goes on with a kept member. */
  lemma SwallowedDiffers(start: string, next: Member, x: string, body: string, rest: string)
    requires IsMember(next) && IsBody(body) && (x == "" || x[0] != ':')
    ensures start + ("," + next.pre + Quoted(next.key) + x) != start + ("," + KeyColon(body) + rest)
  {
    var left := "," + next.pre + Quoted(next.key) + x;
    var right := "," + KeyColon(body) + rest;
    if next.pre != "" {
      assert IsWsChar(next.pre[0]);
      assert (start + left)[|start| + 1] == left[1] == next.pre[0];
      assert (start + right)[|start| + 1] == right[1] == '"';
    } else if start + left == start + right {
      assert left == (start + left)[|start|..] == (start + right)[|start|..] == right;
      assert left[2..] == next.key + "\"" + x;
      assert right[2..] == body + "\"" + (":" + rest);
      BodyIsDelimited(next.key, body, x, ":" + rest);
    }
  }

  lemma KeptAround(key: string, ms: seq<Member>, k: nat)
    requires k < |ms| && !IsThought(key, ms[k])
    ensures KeptWithCommas(key, ms)
         == KeptWithCommas(key, ms[..k]) + Kept(ms[k]) + ("," + KeptWithCommas(key, ms[k + 1..]))
  {
    var before, after := KeptWithCommas(key, ms[..k]), KeptWithCommas(key, ms[k + 1..]);
    assert ms == ms[..k] + ms[k..];
    KeptSplit(key, ms[..k], ms[k..]);
    assert ms[k..][1..] == ms[k + 1..];
    Regroup(Kept(ms[k]), ",", after);
    Regroup(before, Kept(ms[k]), "," + after);
  }

  lemma WantedAround(key: string, ms: seq<Member>, k: nat) returns (ends: bool, body: string, rest: string)
    requires (forall m <- ms :: IsMember(m)) && k < |ms| && !IsThought(key, ms[k])
    ensures var start := "{" + (KeptWithCommas(key, ms[..k]) + Kept(ms[k]));
            WantedMain(key, ms) == if ends then start + "}" else start + ("," + KeyColon(body) + rest)
    ensures IsBody(body)
  {
    var whole := KeptWithCommas(key, ms[..k]) + Kept(ms[k]);
    var after := KeptWithCommas(key, ms[k + 1..]);
    KeptAround(key, ms, k);
    ends := after == "";
    body, rest := "", "";
    if ends {
      assert KeptJoined(key, ms) == whole;
    } else {
      var r: string;
      body, r := FirstKept(key, ms[k + 1..]);
      rest := r[..|r| - 1] + "}";
      Regroup(",", KeyColon(body), r);
      var shown := "," + KeyColon(body) + r[..|r| - 1];
      assert KeptJoined(key, ms) == whole + shown;
      Regroup("," + KeyColon(body), r[..|r| - 1], "}");
      Regroup("{", whole, shown);
      Regroup("{" + whole, shown, "}");
    }
  }

  lemma OutOfStepDiffers(key: string, ms: seq<Member>)
    requires (forall m <- ms :: IsMember(m)) && ThoughtsAreStrings(key, ms) && !OnlyLastMayBeRaw(ms)
    ensures Then(key, Opened, MembersText(ms) + "}").main != WantedMain(key, ms)
  {
    var k := FirstRaw(ms);
    var p := PrefixText(ms[..k]);
    assert IsMember(ms[k]) && IsMember(ms[k + 1]);
    PrefixRead(key, Opened, ms[..k]);
    var s := Then(key, Opened, p);
    RawMemberRead(key, s, ms[k]);
    var t := Then(key, s, MemberText(ms[k]));
    var rest := MembersStart(ms[k + 1..]);
    var next := ms[k + 1];
    var x := NextKeySwallowed(key, t, next, rest + "}");
    // the text, cut where the machine falls out of step
    var swallowed := "," + next.pre + Quoted(next.key) + (rest + "}");
    assert MembersText(ms) + "}" == p + MemberText(ms[k]) + swallowed by {
      MembersSplit(ms, k);
      assert ms[k..][1..] == ms[k + 1..];
      assert MembersText(ms[k..]) == MemberText(ms[k]) + "," + (next.pre + Quoted(next.key) + rest);
      OutOfStepText(p, MemberText(ms[k]), next.pre + Quoted(next.key), rest);
      Regroup(",", next.pre, Quoted(next.key));
    }
    RunAppend(key, false, Opened, p, MemberText(ms[k]));
    RunAppend(key, false, Opened, p + MemberText(ms[k]), swallowed);
    var ends, body, after := WantedAround(key, ms, k);
    var start := "{" + (KeptWithCommas(key, ms[..k]) + Kept(ms[k]));
    Regroup("{", KeptWithCommas(key, ms[..k]), Kept(ms[k]));
    assert t.main == start;
    SwallowedDiffers(start, next, x, body, after);
    if ends {
      assert (start + "}")[|start|] == '}';
      assert Then(key, Opened, MembersText(ms) + "}").main[|start|] == ',';
    }
  }

  lemma OutOfStepText(p: string, m: string, q: string, rest: string)
    ensures p + (m + "," + (q + rest)) + "}" == p + m + ("," + q + (rest + "}"))
  {
  }

  // ------------------------------------------------------------------- the theorem

  /** On every flat object whose inner thoughts are strings, the plain extractor delivers the
      object without its inner-thoughts members, and their bodies, exactly when: only the last
      value is no string, no inner-thoughts member trails others, and no whitespace stands
      before an inner-thoughts string. */
  lemma ExtractionExact(key: string, open: string, ms: seq<Member>)
    requires IsObject(open, ms) && ThoughtsAreStrings(key, ms)
    ensures Extracted(key, ms, Run(key, false, Init(false), ObjectText(open, ms))) <==> Extractable(key, ms)
  {
    OpenRead(key, open, ms);
    if ms == [] {
      assert MembersText(ms) + "}" == "}";
      OneChar(key, Opened, '}');
    } else if OnlyLastMayBeRaw(ms) {
      InStepExact(key, ms);
    } else {
      OutOfStepDiffers(key, ms);
    }
  }

  const A1 := Member("", "a", "", "", Raw("1"), "")
  const AX := Member("", "a", "", "", Str("x"), "")
  const TY := Member("", "t", "", "", Str("y"), "")
  const SpacedTY := Member("", "t", "", " ", Str("y"), "")

  /** A number before another member: {"a":1,"a":"x"}. */
  lemma EarlyNumberNotExtracted()
    ensures !Extracted("t", [A1, AX], Run("t", false, Init(false), ObjectText("", [A1, AX])))
  {
    assert [A1, AX][0].value.Raw?;
    ExtractionExact("t", "", [A1, AX]);
  }

  /** A trailing inner-thoughts member: {"a":"x","t":"y"}. */
  lemma TrailingThoughtNotExtracted()
    ensures !Extracted("t", [AX, TY], Run("t", false, Init(false), ObjectText("", [AX, TY])))
  {
    assert [AX, TY][0] == AX && [AX, TY][1] == TY;
    ExtractionExact("t", "", [AX, TY]);
  }

  /** A space before the inner-thoughts string: {"t": "y","a":"x"}. */
  lemma SpacedThoughtNotExtracted()
    ensures !Extracted("t", [SpacedTY, AX], Run("t", false, Init(false), ObjectText("", [SpacedTY, AX])))
  {
    assert [SpacedTY, AX][0] == SpacedTY;
    ExtractionExact("t", "", [SpacedTY, AX]);
  }
}
