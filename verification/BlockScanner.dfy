/** The scanner that finds lane-output objects in arbitrary model text. Positions count characters. */
module BlockScanner {
  import opened Base
  import opened Chars

  /** Where the scan stands: inside a string begun at `from`, or between strings; the braces still open. */
  datatype Cursor = Cursor(inString: bool, escaped: bool, from: nat, stack: seq<nat>)

  const START := Cursor(false, false, 0, [])

  /** Strings are recognised only inside a brace; a raw line end breaks a string off. */
  function Advance(s: Cursor, c: char, i: nat): Cursor
  {
    if s.inString then
      if s.escaped then s.(escaped := false)
      else if c == '\\' then s.(escaped := true)
      else if c == '"' || c == '\n' || c == '\r' then s.(inString := false)
      else s
    else if c == '"' && s.stack != [] then s.(inString := true, from := i)
    else if c == '{' then s.(stack := s.stack + [i])
    else if c == '}' && s.stack != [] then s.(stack := s.stack[..|s.stack| - 1])
    else s
  }

  /** The cursor before character n. */
  function At(text: string, n: nat): Cursor
    requires n <= |text|
  {
    if n == 0 then START else Advance(At(text, n - 1), text[n - 1], n - 1)
  }

  /** The innermost open brace is number i. */
  predicate Innermost(s: Cursor, i: nat)
  {
    s.stack != [] && s.stack[|s.stack| - 1] == i
  }

  /** The brace opened at i closes at k. */
  predicate Closes(text: string, i: nat, k: nat)
    requires k < |text|
  {
    text[k] == '}' && !At(text, k).inString && Innermost(At(text, k), i)
  }

  /** Array brackets open directly inside the brace at i, before character n. */
  function Arrays(text: string, i: nat, n: nat): nat
    requires n <= |text|
  {
    if n == 0 then 0
    else
      var before, s, c := Arrays(text, i, n - 1), At(text, n - 1), text[n - 1];
      if s.inString || !Innermost(s, i) then before
      else if c == '[' then before + 1
      else if c == ']' && before > 0 then before - 1
      else before
  }

  function SkipWhite(t: string): string
  {
    if t != "" && White(t[0]) then SkipWhite(t[1..]) else t
  }

  predicate FollowsWithColon(text: string, after: nat)
    requires after <= |text|
  {
    var rest := SkipWhite(text[after..]);
    rest != "" && rest[0] == ':'
  }

  /** The bit of a required key, its quotes included. */
  function RequiredKey(key: string): set<nat>
  {
    if key == "\"lane_output_version\"" then {0}
    else if key == "\"task_restatement\"" then {1}
    else if key == "\"verdict\"" then {2}
    else if key == "\"confidence\"" then {3}
    else if key == "\"claims\"" then {4}
    else if key == "\"residuals\"" then {5}
    else if key == "\"uncertainties\"" then {6}
    else {}
  }

  /** Character k ends a string that stands as a key directly inside the brace at i. */
  predicate EndsKey(text: string, i: nat, k: nat)
    requires k < |text|
  {
    var s := At(text, k);
    && s.inString && !s.escaped && text[k] == '"' && Innermost(s, i)
    && Arrays(text, i, k) == 0 && FollowsWithColon(text, k + 1)
  }

  function KeyText(text: string, k: nat): string
    requires k < |text|
  {
    var from := At(text, k).from;
    if from <= k then text[from..k + 1] else ""
  }

  /** The required keys read directly inside the brace at i, before character n. */
  function KeysIn(text: string, i: nat, n: nat): set<nat>
    requires n <= |text|
  {
    if n == 0 then {}
    else KeysIn(text, i, n - 1) + (if EndsKey(text, i, n - 1) then RequiredKey(KeyText(text, n - 1)) else {})
  }

  datatype Block = Block(start: nat, end: Option<nat>, keys: set<nat>)

  /** The key-bearing braces closed before character n, in closing order. */
  function ClosedBlocks(text: string, n: nat): seq<Block>
    requires n <= |text|
  {
    if n == 0 then []
    else
      var s, k := At(text, n - 1), n - 1;
      ClosedBlocks(text, k) +
      (if text[k] == '}' && !s.inString && s.stack != [] && KeysIn(text, s.stack[|s.stack| - 1], k) != {}
       then [Block(s.stack[|s.stack| - 1], Some(n), KeysIn(text, s.stack[|s.stack| - 1], k))] else [])
  }

  /** The key-bearing braces among those given that never close. */
  function OpenBlocks(text: string, stack: seq<nat>): seq<Block>
  {
    if stack == [] then []
    else
      var i := stack[|stack| - 1];
      OpenBlocks(text, stack[..|stack| - 1]) +
      (if KeysIn(text, i, |text|) != {} then [Block(i, None, KeysIn(text, i, |text|))] else [])
  }

  function InsertBlock(b: Block, bs: seq<Block>): seq<Block>
  {
    if bs == [] then [b] else if b.start < bs[0].start then [b] + bs else [bs[0]] + InsertBlock(b, bs[1..])
  }

  function SortBlocks(bs: seq<Block>): seq<Block>
  {
    if bs == [] then [] else InsertBlock(bs[|bs| - 1], SortBlocks(bs[..|bs| - 1]))
  }

  /** The next block lies inside the last one kept. */
  predicate Covered(kept: seq<Block>, b: Block)
  {
    kept != [] && (kept[|kept| - 1].end.None? || b.start < kept[|kept| - 1].end.value)
  }

  function TopLevel(bs: seq<Block>): seq<Block>
  {
    if bs == [] then []
    else
      var kept, b := TopLevel(bs[..|bs| - 1]), bs[|bs| - 1];
      if Covered(kept, b) then kept else kept + [b]
  }

  function Family(text: string): seq<Block>
  {
    ClosedBlocks(text, |text|) + OpenBlocks(text, At(text, |text|).stack)
  }

  // ---- the code -----------------------------------------------------------------------------

  datatype Frame = Frame(start: nat, keys: set<nat>, arrayDepth: nat)

  /** The frames on the scanner's stack agree with what the text says about each open brace. */
  ghost predicate FramesAgree(text: string, n: nat, openings: seq<Frame>)
    requires n <= |text|
  {
    && |openings| == |At(text, n).stack|
    && forall d :: 0 <= d < |openings| ==>
         openings[d] == Frame(At(text, n).stack[d], KeysIn(text, At(text, n).stack[d], n), Arrays(text, At(text, n).stack[d], n))
  }

  /** Open braces are recorded in order, each before the cursor; a string begins before the cursor. */
  lemma {:induction false} StackRises(text: string, n: nat)
    requires n <= |text|
    ensures var s := At(text, n);
            && (forall d :: 0 <= d < |s.stack| ==> s.stack[d] < n)
            && (forall d, e :: 0 <= d < e < |s.stack| ==> s.stack[d] < s.stack[e])
            && (s.inString ==> s.from < n)
  {
    if n > 0 {
      StackRises(text, n - 1);
    }
  }

  /** A brace not yet opened has no keys and no arrays. */
  lemma {:induction false} FreshBrace(text: string, i: nat, n: nat)
    requires n <= |text| && n <= i + 1
    ensures KeysIn(text, i, n) == {} && Arrays(text, i, n) == 0
  {
    if n > 0 {
      FreshBrace(text, i, n - 1);
      StackRises(text, n - 1);
    }
  }

  /** What character n does to the frames. */
  function NextFrames(text: string, n: nat, openings: seq<Frame>): seq<Frame>
    requires n < |text|
  {
    var s, c := At(text, n), text[n];
    if openings == [] then (if !s.inString && c == '{' then [Frame(n, {}, 0)] else [])
    else
      var last := |openings| - 1;
      var f := openings[last];
      if s.inString then
        if !s.escaped && c == '"' && f.arrayDepth == 0 && FollowsWithColon(text, n + 1) then
          openings[last := f.(keys := f.keys + RequiredKey(KeyText(text, n)))]
        else openings
      else if c == '{' then openings + [Frame(n, {}, 0)]
      else if c == '}' then openings[..last]
      else if c == '[' then openings[last := f.(arrayDepth := f.arrayDepth + 1)]
      else if c == ']' && f.arrayDepth > 0 then openings[last := f.(arrayDepth := f.arrayDepth - 1)]
      else openings
  }

  /** A brace that is not innermost is left alone. */
  lemma OuterKeeps(text: string, i: nat, n: nat)
    requires n < |text| && !Innermost(At(text, n), i)
    ensures KeysIn(text, i, n + 1) == KeysIn(text, i, n) && Arrays(text, i, n + 1) == Arrays(text, i, n)
  {
  }

  lemma InnerStep(text: string, i: nat, n: nat)
    requires n < |text| && Innermost(At(text, n), i)
    ensures var s, c := At(text, n), text[n];
            && KeysIn(text, i, n + 1) ==
               KeysIn(text, i, n) + (if s.inString && !s.escaped && c == '"' && Arrays(text, i, n) == 0
                                        && FollowsWithColon(text, n + 1) then RequiredKey(KeyText(text, n)) else {})
            && Arrays(text, i, n + 1) ==
               (if s.inString then Arrays(text, i, n)
                else if c == '[' then Arrays(text, i, n) + 1
                else if c == ']' && Arrays(text, i, n) > 0 then Arrays(text, i, n) - 1
                else Arrays(text, i, n))
  {
  }

  lemma FramesStep(text: string, n: nat, openings: seq<Frame>)
    requires n < |text| && FramesAgree(text, n, openings)
    ensures FramesAgree(text, n + 1, NextFrames(text, n, openings))
  {
    var s := At(text, n);
    var next := NextFrames(text, n, openings);
    assert At(text, n + 1) == Advance(s, text[n], n);
    StackRises(text, n);
    forall d: nat | d < |next|
      ensures d < |At(text, n + 1).stack| && next[d] == FrameAt(text, n + 1, At(text, n + 1).stack[d])
    {
      FrameStep(text, n, openings, d);
    }
  }

  function FrameAt(text: string, n: nat, i: nat): Frame
    requires n <= |text|
  {
    Frame(i, KeysIn(text, i, n), Arrays(text, i, n))
  }

  lemma FrameStep(text: string, n: nat, openings: seq<Frame>, d: nat)
    requires n < |text| && FramesAgree(text, n, openings) && d < |NextFrames(text, n, openings)|
    ensures d < |At(text, n + 1).stack|
    ensures NextFrames(text, n, openings)[d] == FrameAt(text, n + 1, At(text, n + 1).stack[d])
  {
    if d + 1 < |openings| {
      OuterFrame(text, n, openings, d);
    } else if d == |openings| {
      NewFrame(text, n, openings);
    } else {
      InnerFrame(text, n, openings);
    }
  }

  lemma OuterFrame(text: string, n: nat, openings: seq<Frame>, d: nat)
    requires n < |text| && FramesAgree(text, n, openings) && d + 1 < |openings|
    ensures d < |At(text, n + 1).stack| && d < |NextFrames(text, n, openings)|
    ensures NextFrames(text, n, openings)[d] == FrameAt(text, n + 1, At(text, n + 1).stack[d])
  {
    StackRises(text, n);
    var i := At(text, n).stack[d];
    OuterKeeps(text, i, n);
    assert At(text, n + 1).stack[d] == i;
    assert NextFrames(text, n, openings)[d] == openings[d];
  }

  lemma FreshFrame(text: string, n: nat)
    requires n < |text|
    ensures FrameAt(text, n + 1, n) == Frame(n, {}, 0)
  {
    FreshBrace(text, n, n + 1);
  }

  lemma NewFrame(text: string, n: nat, openings: seq<Frame>)
    requires n < |text| && FramesAgree(text, n, openings) && |openings| < |NextFrames(text, n, openings)|
    ensures |openings| < |At(text, n + 1).stack|
    ensures NextFrames(text, n, openings)[|openings|] == FrameAt(text, n + 1, At(text, n + 1).stack[|openings|])
  {
    FreshFrame(text, n);
    hide FrameAt, KeysIn, Arrays;
    assert At(text, n + 1).stack == At(text, n).stack + [n];
  }

  lemma InnerFrame(text: string, n: nat, openings: seq<Frame>)
    requires n < |text| && FramesAgree(text, n, openings) && openings != []
    requires |openings| <= |NextFrames(text, n, openings)|
    ensures |openings| <= |At(text, n + 1).stack|
    ensures NextFrames(text, n, openings)[|openings| - 1] == FrameAt(text, n + 1, At(text, n + 1).stack[|openings| - 1])
  {
    var last := |openings| - 1;
    var i := At(text, n).stack[last];
    InnerStep(text, i, n);
    assert openings[last] == FrameAt(text, n, i);
    assert At(text, n + 1).stack[last] == i;
  }

  /** The scanner's variables. */
  datatype Scan = Scan(openings: seq<Frame>, blocks: seq<Block>, inString: bool, escaped: bool, stringStart: nat)

  ghost predicate Agrees(text: string, n: nat, v: Scan)
    requires n <= |text|
  {
    && v.inString == At(text, n).inString && v.escaped == At(text, n).escaped
    && (v.inString ==> v.stringStart == At(text, n).from)
    && FramesAgree(text, n, v.openings)
    && v.blocks == ClosedBlocks(text, n)
  }

  method InsideString(text: string, n: nat, v: Scan) returns (next: Scan)
    requires n < |text| && Agrees(text, n, v) && v.inString
    ensures Agrees(text, n + 1, next)
  {
    var c := text[n];
    StackRises(text, n);
    FramesStep(text, n, v.openings);
    next := v;
    if v.escaped {
      next := next.(escaped := false);
    } else if c == '\\' {
      next := next.(escaped := true);
    } else if c == '"' {
      var openings := CloseString(text, n, v.openings, v.stringStart);
      next := next.(inString := false, openings := openings);
    } else if c == '\n' || c == '\r' {
      next := next.(inString := false);
    }
  }

  method BetweenStrings(text: string, n: nat, v: Scan) returns (next: Scan)
    requires n < |text| && Agrees(text, n, v) && !v.inString
    ensures Agrees(text, n + 1, next)
  {
    var c := text[n];
    StackRises(text, n);
    FramesStep(text, n, v.openings);
    if c == '"' && v.openings != [] {
      next := v.(inString := true, stringStart := n);
    } else {
      BracketStep(text, n, v);
      next := v.(blocks := v.blocks + CloseBrace(n, c, v.openings), openings := Bracket(n, c, v.openings));
    }
  }

  lemma BracketStep(text: string, n: nat, v: Scan)
    requires n < |text| && Agrees(text, n, v) && !v.inString && !(text[n] == '"' && v.openings != [])
    ensures Bracket(n, text[n], v.openings) == NextFrames(text, n, v.openings)
    ensures v.blocks + CloseBrace(n, text[n], v.openings) == ClosedBlocks(text, n + 1)
  {
    BracketFrames(text, n, v.openings);
    BracketBlocks(text, n, v.openings);
  }

  lemma BracketFrames(text: string, n: nat, openings: seq<Frame>)
    requires n < |text| && !At(text, n).inString && !(text[n] == '"' && openings != [])
    ensures Bracket(n, text[n], openings) == NextFrames(text, n, openings)
  {
    if text[n] == ']' && openings != [] {
      var last := |openings| - 1;
      assert openings[last := openings[last]] == openings;
    }
  }

  lemma BracketBlocks(text: string, n: nat, openings: seq<Frame>)
    requires n < |text| && !At(text, n).inString && FramesAgree(text, n, openings)
    ensures ClosedBlocks(text, n) + CloseBrace(n, text[n], openings) == ClosedBlocks(text, n + 1)
  {
    if openings != [] {
      assert openings[|openings| - 1].start == At(text, n).stack[|openings| - 1];
    }
  }

  method LaneOutputObjectBlocks(text: string) returns (top: seq<Block>)
    ensures top == TopLevel(SortBlocks(Family(text)))
  {
    var v := Scan([], [], false, false, 0);
    for n := 0 to |text|
      invariant Agrees(text, n, v)
    {
      if v.inString {
        v := InsideString(text, n, v);
      } else {
        v := BetweenStrings(text, n, v);
      }
    }
    var open := FilterOpen(text, v.openings);
    top := KeepOutermost(SortBlocks(v.blocks + open));
  }

  /** A string has ended: as a key of the innermost frame it counts when it names a required key. */
  method CloseString(text: string, n: nat, openings: seq<Frame>, stringStart: nat) returns (next: seq<Frame>)
    requires n < |text| && At(text, n).inString && !At(text, n).escaped && text[n] == '"'
    requires stringStart == At(text, n).from <= n
    ensures next == NextFrames(text, n, openings)
  {
    next := openings;
    if openings != [] {
      var last := |openings| - 1;
      var frame := openings[last];
      if frame.arrayDepth == 0 && FollowsWithColon(text, n + 1) {
        next := openings[last := frame.(keys := frame.keys + RequiredKey(text[stringStart..n + 1]))];
      }
    }
  }

  /** A brace has closed: it is a block when it bears a key. */
  function CloseBrace(n: nat, c: char, openings: seq<Frame>): seq<Block>
  {
    if c == '}' && openings != [] && openings[|openings| - 1].keys != {} then
      [Block(openings[|openings| - 1].start, Some(n + 1), openings[|openings| - 1].keys)]
    else []
  }

  function Bracket(n: nat, c: char, openings: seq<Frame>): seq<Frame>
  {
    if c == '{' then openings + [Frame(n, {}, 0)]
    else if openings == [] then []
    else
      var last := |openings| - 1;
      var f := openings[last];
      if c == '}' then openings[..last]
      else if c == '[' then openings[last := f.(arrayDepth := f.arrayDepth + 1)]
      else if c == ']' then openings[last := f.(arrayDepth := if f.arrayDepth > 0 then f.arrayDepth - 1 else 0)]
      else openings
  }

  method FilterOpen(text: string, openings: seq<Frame>) returns (open: seq<Block>)
    requires FramesAgree(text, |text|, openings)
    ensures open == OpenBlocks(text, At(text, |text|).stack)
  {
    open := [];
    ghost var stack := At(text, |text|).stack;
    for d := 0 to |openings|
      invariant open == OpenBlocks(text, stack[..d])
    {
      assert stack[..d + 1][..d] == stack[..d];
      if openings[d].keys != {} {
        open := open + [Block(openings[d].start, None, openings[d].keys)];
      }
    }
    assert stack[..|openings|] == stack;
  }

  method KeepOutermost(blocks: seq<Block>) returns (top: seq<Block>)
    ensures top == TopLevel(blocks)
  {
    top := [];
    for n := 0 to |blocks|
      invariant top == TopLevel(blocks[..n])
    {
      assert blocks[..n + 1][..n] == blocks[..n];
      if !Covered(top, blocks[n]) {
        top := top + [blocks[n]];
      }
    }
    assert blocks[..|blocks|] == blocks;
  }
}
