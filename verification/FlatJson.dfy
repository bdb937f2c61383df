/** Flat JSON objects as texts (sections 2, 4 and 7 of RFC 8259), with the whitespace
    slots a model's output has. */
module FlatJson {

  /** A string value by its raw (still escaped) body; any other value by its text. */
  datatype Value = Str(body: string) | Raw(text: string)

  /** pre "key" mid : post value trail */
  datatype Member = Member(pre: string, key: string, mid: string, post: string, value: Value, trail: string)

  predicate IsWsChar(c: char) { c == ' ' || c == '\t' || c == '\r' || c == '\n' }

  predicate IsWs(text: string) {
    forall i :: 0 <= i < |text| ==> IsWsChar(text[i])
  }

  predicate IsPlainChar(c: char) { c != '"' && c != '\\' && c != '{' && c != '}' }

  /** A string body: no bare quote, every backslash followed by a character. */
  predicate IsBody(text: string)
    decreases text
  {
    text == ""
    || (text[0] == '\\' && |text| >= 2 && IsBody(text[2..]))
    || (text[0] != '\\' && text[0] != '"' && IsBody(text[1..]))
  }

  /** The text of a value that is no string and no object: a literal, a number, and more. */
  predicate IsRaw(text: string) {
    text != "" && forall i :: 0 <= i < |text| ==> IsPlainChar(text[i])
  }

  predicate IsMember(m: Member) {
    && IsWs(m.pre) && IsBody(m.key) && IsWs(m.mid) && IsWs(m.post) && IsWs(m.trail)
    && match m.value case Str(body) => IsBody(body) case Raw(text) => IsRaw(text)
  }

  function Quoted(body: string): string { "\"" + body + "\"" }

  function ValueText(v: Value): string {
    match v case Str(body) => Quoted(body) case Raw(text) => text
  }

  function MemberText(m: Member): string {
    m.pre + Quoted(m.key) + m.mid + ":" + m.post + ValueText(m.value) + m.trail
  }

  /** Members joined by commas. */
  function MembersText(ms: seq<Member>): string {
    if ms == [] then ""
    else if |ms| == 1 then MemberText(ms[0])
    else MemberText(ms[0]) + "," + MembersText(ms[1..])
  }

  function ObjectText(open: string, ms: seq<Member>): string {
    "{" + open + MembersText(ms) + "}"
  }

  predicate IsObject(open: string, ms: seq<Member>) {
    IsWs(open) && forall m <- ms :: IsMember(m)
  }

  /** Two quoted bodies that start equal texts are the same body. */
  lemma {:induction false} BodyIsDelimited(a: string, b: string, restA: string, restB: string)
    requires IsBody(a) && IsBody(b)
    requires a + "\"" + restA == b + "\"" + restB
    ensures a == b && restA == restB
    decreases a
  {
    var whole := a + "\"" + restA;
    assert whole[0] == (if a == "" then '"' else a[0]) == (if b == "" then '"' else b[0]);
    if a == "" {
      assert whole[0] == '"';
      assert b == "";
      assert whole[1..] == restA;
    } else if b == "" {
      assert false;
    } else if a[0] == '\\' {
      assert whole[0] == b[0];
      assert whole[2..] == a[2..] + "\"" + restA == b[2..] + "\"" + restB;
      BodyIsDelimited(a[2..], b[2..], restA, restB);
      assert a == a[..2] + a[2..] && b == b[..2] + b[2..] && a[..2] == whole[..2] == b[..2];
    } else {
      assert whole[0] == b[0];
      assert whole[1..] == a[1..] + "\"" + restA == b[1..] + "\"" + restB;
      BodyIsDelimited(a[1..], b[1..], restA, restB);
      assert a == a[..1] + a[1..] && b == b[..1] + b[1..] && a[..1] == whole[..1] == b[..1];
    }
  }
}
