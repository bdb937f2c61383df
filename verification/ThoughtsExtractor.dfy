/** JSONInnerThoughtsExtractor (letta/streaming_utils.py:7-249). */
module ThoughtsExtractor {
  import opened Sequences
  import opened ThoughtsMachine

  class JSONInnerThoughtsExtractor {
    const innerThoughtsKey: string
    const waitForFirstKey: bool
    var mainBuffer: string
    var innerThoughtsBuffer: string
    var state: Control
    var inString: bool
    var escaped: bool
    var currentKey: string
    var isInnerThoughtsValue: bool
    var innerThoughtsProcessed: bool
    var holdMainJson: bool
    var mainJsonHeldBuffer: string

    function Abs(): State
      reads this
    {
      State(state, inString, escaped, currentKey, isInnerThoughtsValue, innerThoughtsProcessed,
            holdMainJson, mainBuffer, innerThoughtsBuffer, mainJsonHeldBuffer)
    }

    constructor (innerThoughtsKey: string, waitForFirstKey: bool)
      ensures this.innerThoughtsKey == innerThoughtsKey && this.waitForFirstKey == waitForFirstKey
      ensures Abs() == Init(waitForFirstKey)
    {
      this.innerThoughtsKey := innerThoughtsKey;
      this.waitForFirstKey := waitForFirstKey;
      mainBuffer := "";
      innerThoughtsBuffer := "";
      state := Start;
      inString := false;
      escaped := false;
      currentKey := "";
      isInnerThoughtsValue := false;
      innerThoughtsProcessed := false;
      holdMainJson := waitForFirstKey;
      mainJsonHeldBuffer := "";
    }

    /** The source's repeated "hold it back or hand it out" branch. */
    method EmitMain(text: string) returns (update: string)
      modifies this`mainBuffer, this`mainJsonHeldBuffer
      ensures Abs() == ToMain(old(Abs()), text)
      ensures mainBuffer == old(mainBuffer) + update
    {
      update := "";
      if holdMainJson {
        mainJsonHeldBuffer := mainJsonHeldBuffer + text;
      } else {
        update := text;
        mainBuffer := mainBuffer + text;
      }
    }

    /** The branch for a character of the current string. */
    method EmitStringChar(c: char) returns (mainUpdate: string, thoughtsUpdate: string)
      modifies this`mainBuffer, this`mainJsonHeldBuffer, this`innerThoughtsBuffer, this`currentKey
      ensures Abs() == StringChar(old(Abs()), c)
      ensures mainBuffer == old(mainBuffer) + mainUpdate
      ensures innerThoughtsBuffer == old(innerThoughtsBuffer) + thoughtsUpdate
    {
      mainUpdate, thoughtsUpdate := "", "";
      if state == Key {
        currentKey := currentKey + [c];
      } else if state == Value {
        if isInnerThoughtsValue {
          thoughtsUpdate := [c];
          innerThoughtsBuffer := innerThoughtsBuffer + [c];
        } else {
          mainUpdate := EmitMain([c]);
        }
      }
    }

    /** The branch for an unescaped quote. */
    method HandleQuote() returns (mainUpdate: string)
      modifies this
      ensures Abs() == if old(inString) then CloseQuote(old(Abs())) else OpenQuote(waitForFirstKey, old(Abs()))
      ensures mainBuffer == old(mainBuffer) + mainUpdate
      ensures innerThoughtsBuffer == old(innerThoughtsBuffer)
    {
      mainUpdate := "";
      inString := !inString;
      if inString {
        if state == Start || state == CommaOrEnd {
          state := Key;
          currentKey := "";
          if waitForFirstKey && holdMainJson && innerThoughtsProcessed {
            mainUpdate := mainJsonHeldBuffer;
            mainBuffer := mainBuffer + mainJsonHeldBuffer;
            mainJsonHeldBuffer := "";
            holdMainJson := false;
          }
        } else if state == Value {
          if !isInnerThoughtsValue {
            mainUpdate := EmitMain("\"");
          }
        }
      } else {
        if state == Key {
          state := Colon;
        } else if state == Value {
          if isInnerThoughtsValue {
            innerThoughtsProcessed := true;
          } else {
            mainUpdate := EmitMain("\"");
          }
          state := CommaOrEnd;
        }
      }
    }

    /** The branch for an unescaped, unquoted character. */
    method HandleStructural(c: char) returns (mainUpdate: string, thoughtsUpdate: string)
      modifies this
      ensures Abs() == Structural(innerThoughtsKey, old(Abs()), c)
      ensures mainBuffer == old(mainBuffer) + mainUpdate
      ensures innerThoughtsBuffer == old(innerThoughtsBuffer) + thoughtsUpdate
    {
      mainUpdate, thoughtsUpdate := "", "";
      if c == ':' && state == Colon {
        state := Value;
        isInnerThoughtsValue := currentKey == innerThoughtsKey;
        if !isInnerThoughtsValue {
          mainUpdate := EmitMain("\"" + currentKey + "\":");
        }
      } else if c == ',' && state == CommaOrEnd {
        if isInnerThoughtsValue {
          isInnerThoughtsValue := false;
          state := Start;
        } else {
          mainUpdate := EmitMain([c]);
          state := Start;
        }
      } else if c == '{' {
        if !isInnerThoughtsValue {
          mainUpdate := EmitMain([c]);
        }
      } else if c == '}' {
        state := End;
        mainUpdate := EmitMain([c]);
      } else if state == Value {
        if isInnerThoughtsValue {
          thoughtsUpdate := [c];
          innerThoughtsBuffer := innerThoughtsBuffer + [c];
        } else {
          mainUpdate := EmitMain([c]);
        }
      }
    }

    /** The body of the source's loop: one character. */
    method ProcessChar(c: char) returns (mainUpdate: string, thoughtsUpdate: string)
      modifies this
      ensures Abs() == Step(innerThoughtsKey, waitForFirstKey, old(Abs()), c)
      ensures mainBuffer == old(mainBuffer) + mainUpdate
      ensures innerThoughtsBuffer == old(innerThoughtsBuffer) + thoughtsUpdate
    {
      mainUpdate, thoughtsUpdate := "", "";
      if escaped {
        escaped := false;
        if inString {
          mainUpdate, thoughtsUpdate := EmitStringChar(c);
        } else if !isInnerThoughtsValue {
          mainUpdate := EmitMain([c]);
        }
      } else if c == '\\' {
        escaped := true;
        if inString {
          mainUpdate, thoughtsUpdate := EmitStringChar(c);
        } else if !isInnerThoughtsValue {
          mainUpdate := EmitMain([c]);
        }
      } else if c == '"' {
        if !escaped {
          mainUpdate := HandleQuote();
        } else {
          assert false;  // the source's inner escape branch is never reached
        }
      } else if inString {
        mainUpdate, thoughtsUpdate := EmitStringChar(c);
      } else {
        mainUpdate, thoughtsUpdate := HandleStructural(c);
      }
    }

    /** One fragment: the object follows the machine, and the two returned updates are
        exactly what the two public buffers gained. */
    method ProcessFragment(fragment: string) returns (updatesMainJson: string, updatesInnerThoughts: string)
      modifies this
      ensures Abs() == Run(innerThoughtsKey, waitForFirstKey, old(Abs()), fragment)
      ensures mainBuffer == old(mainBuffer) + updatesMainJson
      ensures innerThoughtsBuffer == old(innerThoughtsBuffer) + updatesInnerThoughts
    {
      updatesMainJson, updatesInnerThoughts := "", "";
      ghost var start := Abs();
      var i := 0;
      while i < |fragment|
        invariant 0 <= i <= |fragment|
        invariant Abs() == Run(innerThoughtsKey, waitForFirstKey, start, fragment[..i])
        invariant mainBuffer == start.main + updatesMainJson
        invariant innerThoughtsBuffer == start.thoughts + updatesInnerThoughts
      {
        var mainUpdate, thoughtsUpdate := ProcessChar(fragment[i]);
        Regroup(start.main, updatesMainJson, mainUpdate);
        Regroup(start.thoughts, updatesInnerThoughts, thoughtsUpdate);
        RunSnoc(innerThoughtsKey, waitForFirstKey, start, fragment, i);
        updatesMainJson := updatesMainJson + mainUpdate;
        updatesInnerThoughts := updatesInnerThoughts + thoughtsUpdate;
        i := i + 1;
      }
      assert fragment[..i] == fragment;
    }
  }

  lemma OneMoreFragment(key: string, wait: bool, start: State, fragments: seq<string>, k: nat)
    requires k < |fragments|
    ensures Run(key, wait, start, Concat(fragments[..k + 1])) == Run(key, wait, Run(key, wait, start, Concat(fragments[..k])), fragments[k])
  {
    TakeSnoc(fragments, k);
    ConcatSnoc(fragments[..k], fragments[k]);
    RunAppend(key, wait, start, Concat(fragments[..k]), fragments[k]);
  }

  /** The class's documented usage: one call per fragment.  Whatever the cuts, the object
      ends as after one call on the whole text, and the updates handed out along the way
      concatenate to what the two buffers gained. */
  method FeedAll(extractor: JSONInnerThoughtsExtractor, fragments: seq<string>)
    returns (mainUpdates: seq<string>, thoughtsUpdates: seq<string>)
    modifies extractor
    ensures extractor.Abs() == Run(extractor.innerThoughtsKey, extractor.waitForFirstKey, old(extractor.Abs()), Concat(fragments))
    ensures |mainUpdates| == |thoughtsUpdates| == |fragments|
    ensures extractor.mainBuffer == old(extractor.mainBuffer) + Concat(mainUpdates)
    ensures extractor.innerThoughtsBuffer == old(extractor.innerThoughtsBuffer) + Concat(thoughtsUpdates)
  {
    mainUpdates, thoughtsUpdates := [], [];
    ghost var key, wait, start := extractor.innerThoughtsKey, extractor.waitForFirstKey, extractor.Abs();
    var k := 0;
    while k < |fragments|
      invariant 0 <= k <= |fragments|
      invariant extractor.Abs() == Run(key, wait, start, Concat(fragments[..k]))
      invariant |mainUpdates| == |thoughtsUpdates| == k
      invariant extractor.mainBuffer == start.main + Concat(mainUpdates)
      invariant extractor.innerThoughtsBuffer == start.thoughts + Concat(thoughtsUpdates)
    {
      var u, v := extractor.ProcessFragment(fragments[k]);
      Regroup(start.main, Concat(mainUpdates), u);
      Regroup(start.thoughts, Concat(thoughtsUpdates), v);
      ConcatSnoc(mainUpdates, u);
      ConcatSnoc(thoughtsUpdates, v);
      OneMoreFragment(key, wait, start, fragments, k);
      mainUpdates, thoughtsUpdates := mainUpdates + [u], thoughtsUpdates + [v];
      k := k + 1;
    }
    assert fragments[..k] == fragments;
  }
}
