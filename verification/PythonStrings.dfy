/** str.strip, as the sources use it. */
module PythonStrings {
  import opened Sequences

  /** What str.strip removes: the characters str.isspace accepts. */
  predicate IsSpace(c: char) {
    || '\t' <= c <= '\r' || '\U{1C}' <= c <= ' ' || c == '\U{85}' || c == '\U{A0}' || c == '\U{1680}'
    || '\U{2000}' <= c <= '\U{200A}' || c == '\U{2028}' || c == '\U{2029}' || c == '\U{202F}'
    || c == '\U{205F}' || c == '\U{3000}'
  }

  function StripLeft(s: string): string
    decreases s
  {
    if s != "" && IsSpace(s[0]) then StripLeft(s[1..]) else s
  }

  function StripRight(s: string): string
    decreases s
  {
    if s != "" && IsSpace(s[|s| - 1]) then StripRight(s[..|s| - 1]) else s
  }

  function Strip(s: string): string { StripRight(StripLeft(s)) }

  lemma {:induction false} StripLeftThrough(x: string, y: string)
    requires y != "" && !IsSpace(y[0])
    ensures StripLeft(x + y) == StripLeft(x) + y
    ensures StripLeft(x) == "" || !IsSpace(StripLeft(x)[0])
    decreases x
  {
    if x == "" {
      assert x + y == y && StripLeft(x) + y == y;
    } else if IsSpace(x[0]) {
      assert (x + y)[1..] == x[1..] + y;
      StripLeftThrough(x[1..], y);
    }
  }

  predicate AllSpace(s: string) {
    forall i :: 0 <= i < |s| ==> IsSpace(s[i])
  }

  lemma {:induction false} StripLeftOfSpace(s: string)
    requires AllSpace(s)
    ensures StripLeft(s) == ""
    decreases s
  {
    if s != "" { StripLeftOfSpace(s[1..]); }
  }

  lemma {:induction false} StripRightPast(x: string, spaces: string)
    requires x != "" && !IsSpace(x[|x| - 1]) && AllSpace(spaces)
    ensures StripRight(x + spaces) == x
    decreases spaces
  {
    if spaces == "" {
      assert x + spaces == x;
    } else {
      var n := |spaces| - 1;
      assert (x + spaces)[..|x| + n] == x + spaces[..n];
      StripRightPast(x, spaces[..n]);
    }
  }

  /** Stripping on the right stops at a character that is no space. */
  lemma {:induction false} StripRightWithin(x: string, y: string)
    requires x != "" && !IsSpace(x[|x| - 1])
    ensures StripRight(x + y) == x + StripRight(y)
    ensures forall c <- StripRight(y) :: c in y
    decreases y
  {
    if y == "" {
      assert x + y == x && x + StripRight(y) == x;
    } else {
      var n := |y| - 1;
      assert (x + y)[..|x| + n] == x + y[..n];
      StripRightWithin(x, y[..n]);
    }
  }

  lemma {:induction false} StripRightIsPrefix(s: string)
    ensures StripRight(s) <= s
    decreases s
  {
    if s != "" && IsSpace(s[|s| - 1]) { StripRightIsPrefix(s[..|s| - 1]); }
  }

  lemma {:induction false} StripLeftEmpty(s: string)
    ensures StripLeft(s) == "" <==> AllSpace(s)
    decreases s
  {
    if s != "" && IsSpace(s[0]) {
      StripLeftEmpty(s[1..]);
      assert s == [s[0]] + s[1..];
    }
  }

  lemma {:induction false} StripRightEmpty(s: string)
    ensures StripRight(s) == "" <==> AllSpace(s)
    decreases s
  {
    if s != "" && IsSpace(s[|s| - 1]) {
      StripRightEmpty(s[..|s| - 1]);
      assert s == s[..|s| - 1] + [s[|s| - 1]];
    }
  }

  /** Around a character that is no space, strip works on either side by itself. */
  lemma StripAround(x: string, c: char, y: string)
    requires !IsSpace(c)
    ensures Strip(x + ([c] + y)) == StripLeft(x) + [c] + StripRight(y)
  {
    StripLeftThrough(x, [c] + y);
    var left := StripLeft(x) + [c];
    Regroup(StripLeft(x), [c], y);
    StripRightWithin(left, y);
  }

  lemma StripKeepsChar(s: string, c: char)
    requires !IsSpace(c)
    ensures c in Strip(s) <==> c in s
  {
    StripLeftKeepsChar(s, c);
    StripRightKeepsChar(StripLeft(s), c);
  }

  lemma {:induction false} StripLeftKeepsChar(s: string, c: char)
    requires !IsSpace(c)
    ensures c in StripLeft(s) <==> c in s
    decreases s
  {
    if s != "" && IsSpace(s[0]) {
      StripLeftKeepsChar(s[1..], c);
      assert s == [s[0]] + s[1..];
    }
  }

  lemma {:induction false} StripRightKeepsChar(s: string, c: char)
    requires !IsSpace(c)
    ensures c in StripRight(s) <==> c in s
    decreases s
  {
    if s != "" && IsSpace(s[|s| - 1]) {
      StripRightKeepsChar(s[..|s| - 1], c);
      assert s == s[..|s| - 1] + [s[|s| - 1]];
    }
  }

  /** A text that neither starts nor ends with a space. */
  lemma StripKeeps(s: string)
    requires s != "" && !IsSpace(s[0]) && !IsSpace(s[|s| - 1])
    ensures Strip(s) == s
  {
  }

  /** The characters str.strip removes, one by one. */
  lemma SpacesListed(c: char)
    ensures IsSpace(c) == (c in
      ['\t', '\n', '\U{0B}', '\U{0C}', '\r', '\U{1C}', '\U{1D}', '\U{1E}', '\U{1F}', ' ', '\U{85}', '\U{A0}', '\U{1680}',
       '\U{2000}', '\U{2001}', '\U{2002}', '\U{2003}', '\U{2004}', '\U{2005}', '\U{2006}', '\U{2007}', '\U{2008}', '\U{2009}',
       '\U{200A}', '\U{2028}', '\U{2029}', '\U{202F}', '\U{205F}', '\U{3000}'])
  {
  }

  /** What strip does: spaces go on both sides, and none is left at an end. */
  lemma StripMeans(s: string) returns (left: string, right: string)
    ensures s == left + Strip(s) + right && AllSpace(left) && AllSpace(right)
    ensures Strip(s) != "" ==> !IsSpace(Strip(s)[0]) && !IsSpace(Strip(s)[|Strip(s)| - 1])
  {
    left := StripLeftMeans(s);
    right := StripRightMeans(StripLeft(s));
    Regroup(left, Strip(s), right);
  }

  lemma {:induction false} StripLeftMeans(s: string) returns (left: string)
    ensures s == left + StripLeft(s) && AllSpace(left) && (StripLeft(s) != "" ==> !IsSpace(StripLeft(s)[0]))
    decreases s
  {
    left := "";
    if s != "" && IsSpace(s[0]) {
      var rest := StripLeftMeans(s[1..]);
      left := [s[0]] + rest;
      Regroup([s[0]], rest, StripLeft(s));
      assert s == [s[0]] + s[1..];
    }
  }

  lemma {:induction false} StripRightMeans(s: string) returns (right: string)
    ensures s == StripRight(s) + right && AllSpace(right)
    ensures StripRight(s) != "" ==> StripRight(s)[0] == s[0] && !IsSpace(StripRight(s)[|StripRight(s)| - 1])
    decreases s
  {
    right := "";
    if s != "" && IsSpace(s[|s| - 1]) {
      var n := |s| - 1;
      var rest := StripRightMeans(s[..n]);
      right := rest + [s[n]];
      Regroup(StripRight(s), rest, [s[n]]);
      AsSnoc(s, n);
    }
  }
}
