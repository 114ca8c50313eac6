/** The scanner's blocks are exactly the outermost key-bearing braces of the text. */
module BlockTheorems {
  import opened Base
  import opened BlockScanner

  // ---- lifetimes of braces -----------------------------------------------------------

  lemma StackStep(text: string, n: nat, i: nat)
    requires n < |text|
    ensures i in At(text, n + 1).stack <==>
              (i in At(text, n).stack && !Closes(text, i, n)) || (i == n && text[n] == '{' && !At(text, n).inString)
  {
    var s := At(text, n);
    StackRises(text, n);
    assert At(text, n + 1) == Advance(s, text[n], n);
    if s.stack != [] {
      assert s.stack == s.stack[..|s.stack| - 1] + [s.stack[|s.stack| - 1]];
    }
  }

  /** A brace that has been closed does not come back. */
  lemma {:induction false} GoneForGood(text: string, i: nat, n: nat, m: nat)
    requires i < n <= m <= |text| && i !in At(text, n).stack
    ensures i !in At(text, m).stack
    decreases m
  {
    if n < m {
      GoneForGood(text, i, n, m - 1);
      StackStep(text, m - 1, i);
    }
  }

  /** A brace open at n is open at m, or closes in between. */
  lemma {:induction false} OpenOrClosed(text: string, i: nat, n: nat, m: nat) returns (k: nat)
    requires n <= m <= |text| && i in At(text, n).stack
    ensures i in At(text, m).stack || (n <= k < m && Closes(text, i, k))
    decreases m
  {
    hide At, Closes;
    if n == m {
      k := n;
    } else {
      k := OpenOrClosed(text, i, n, m - 1);
      if i in At(text, m - 1).stack {
        StackStep(text, m - 1, i);
        k := m - 1;
      }
    }
  }

  /** An open brace was open at every earlier moment since it was read. */
  lemma WasOpen(text: string, i: nat, m: nat, n: nat)
    requires i < m <= n <= |text| && i in At(text, n).stack
    ensures i in At(text, m).stack
  {
    if i !in At(text, m).stack {
      GoneForGood(text, i, m, n);
    }
  }

  lemma ClosedIsGone(text: string, i: nat, k: nat)
    requires k < |text| && Closes(text, i, k)
    ensures i < k && i in At(text, k).stack && i !in At(text, k + 1).stack
  {
    StackRises(text, k);
    StackStep(text, k, i);
  }

  /** A brace closes once. */
  lemma ClosesOnce(text: string, i: nat, k: nat, l: nat)
    requires k < |text| && l < |text| && Closes(text, i, k) && Closes(text, i, l)
    ensures k == l
  {
    ClosedIsGone(text, i, k);
    ClosedIsGone(text, i, l);
    if k < l {
      GoneForGood(text, i, k + 1, l);
    } else if l < k {
      GoneForGood(text, i, l + 1, k);
    }
  }

  /** What is opened inside a brace closes before it. */
  lemma InnerClosesFirst(text: string, i: nat, k: nat, j: nat) returns (l: nat)
    requires k < |text| && Closes(text, i, k) && i < j < k && j in At(text, j + 1).stack
    ensures l < k && Closes(text, j, l)
  {
    StackRises(text, k);
    l := OpenOrClosed(text, j, j + 1, k);
    assert j !in At(text, k).stack;
  }

  // ---- the family --------------------------------------------------------------------------

  /** A key-bearing brace of the text, with its extent and the required keys read directly inside it. */
  ghost predicate IsBlock(text: string, b: Block)
  {
    && b.keys != {}
    && match b.end
       case Some(e) => 0 < e <= |text| && Closes(text, b.start, e - 1) && b.keys == KeysIn(text, b.start, e - 1)
       case None => b.start in At(text, |text|).stack && b.keys == KeysIn(text, b.start, |text|)
  }

  ghost predicate ClosedBefore(text: string, n: nat, b: Block)
    requires n <= |text|
  {
    && b.keys != {} && b.end.Some? && 0 < b.end.value <= n
    && Closes(text, b.start, b.end.value - 1) && b.keys == KeysIn(text, b.start, b.end.value - 1)
  }

  lemma {:induction false} ClosedExactly(text: string, n: nat, b: Block)
    requires n <= |text|
    ensures b in ClosedBlocks(text, n) <==> ClosedBefore(text, n, b)
  {
    if n > 0 {
      ClosedExactly(text, n - 1, b);
      LastClosed(text, n, b);
      ClosedEarlier(text, n, b);
    }
  }

  lemma ClosedEarlier(text: string, n: nat, b: Block)
    requires 0 < n <= |text|
    ensures ClosedBefore(text, n, b) <==> ClosedBefore(text, n - 1, b) || (b.end == Some(n) && ClosedBefore(text, n, b))
  {
  }

  lemma LastClosed(text: string, n: nat, b: Block)
    requires 0 < n <= |text|
    ensures b in ClosedBlocks(text, n) <==>
            b in ClosedBlocks(text, n - 1) || (b.end == Some(n) && ClosedBefore(text, n, b))
  {
  }

  lemma {:induction false} OpenExactly(text: string, stack: seq<nat>, b: Block)
    ensures b in OpenBlocks(text, stack) <==>
            b.end.None? && b.start in stack && b.keys == KeysIn(text, b.start, |text|) && b.keys != {}
    decreases |stack|
  {
    if stack != [] {
      OpenExactly(text, stack[..|stack| - 1], b);
      assert stack == stack[..|stack| - 1] + [stack[|stack| - 1]];
    }
  }

  /** The blocks collected are exactly the key-bearing braces, closed or not. */
  lemma FamilyIsExact(text: string, b: Block)
    ensures b in Family(text) <==> IsBlock(text, b)
  {
    ClosedExactly(text, |text|, b);
    OpenExactly(text, At(text, |text|).stack, b);
  }

  /** Position p lies before the block's end. */
  predicate Reaches(o: Block, p: nat)
  {
    o.end.None? || p < o.end.value
  }

  /** Of two blocks the later one lies outside the earlier or wholly inside it. */
  ghost predicate Laminar(a: Block, b: Block)
  {
    a.start < b.start ==>
      Reaches(a, b.start) ==> a.end.None? || (b.end.Some? && b.end.value <= a.end.value)
  }

  lemma OpenWasOpened(text: string, i: nat, n: nat)
    requires n <= |text| && i in At(text, n).stack
    ensures i < n && i in At(text, i + 1).stack
  {
    StackRises(text, n);
    WasOpen(text, i, i + 1, n);
  }

  lemma BlockIsOpened(text: string, b: Block)
    requires IsBlock(text, b)
    ensures b.start < |text| && b.start in At(text, b.start + 1).stack
    ensures b.end.Some? ==> b.start + 1 < b.end.value
  {
    match b.end {
      case Some(e) =>
        ClosedIsGone(text, b.start, e - 1);
        OpenWasOpened(text, b.start, e - 1);
      case None =>
        OpenWasOpened(text, b.start, |text|);
    }
  }

  lemma CloserOpensNothing(text: string, i: nat, k: nat)
    requires k < |text| && Closes(text, i, k)
    ensures k !in At(text, k + 1).stack
  {
    StackRises(text, k);
    StackStep(text, k, k);
  }

  /** A block begun inside a closed one ends inside it. */
  lemma EndsInside(text: string, i: nat, k: nat, b: Block)
    requires k < |text| && Closes(text, i, k) && IsBlock(text, b) && i < b.start <= k
    ensures b.end.Some? && b.end.value <= k + 1
  {
    BlockIsOpened(text, b);
    if b.start == k {
      CloserOpensNothing(text, i, k);
    } else {
      var l := InnerClosesFirst(text, i, k, b.start);
      ClosedBlockEnds(text, b, l);
    }
  }

  lemma ClosedBlockEnds(text: string, b: Block, l: nat)
    requires l < |text| && IsBlock(text, b) && Closes(text, b.start, l)
    ensures b.end == Some(l + 1)
  {
    match b.end {
      case Some(e) => ClosesOnce(text, b.start, l, e - 1);
      case None =>
        ClosedIsGone(text, b.start, l);
        GoneForGood(text, b.start, l + 1, |text|);
    }
  }

  lemma FamilyIsLaminar(text: string, a: Block, b: Block)
    requires IsBlock(text, a) && IsBlock(text, b)
    ensures Laminar(a, b)
  {
    if a.start < b.start && a.end.Some? && b.start < a.end.value {
      EndsInside(text, a.start, a.end.value - 1, b);
    }
  }

  lemma SameStart(text: string, a: Block, b: Block)
    requires IsBlock(text, a) && IsBlock(text, b) && a.start == b.start
    ensures a == b
  {
    if a.end.Some? {
      ClosedBlockEnds(text, b, a.end.value - 1);
    } else if b.end.Some? {
      ClosedBlockEnds(text, a, b.end.value - 1);
    }
  }

  // ---- keeping the outermost ----------------------------------------------------------------

  ghost predicate Ascending(bs: seq<Block>)
  {
    forall i, j :: 0 <= i < j < |bs| ==> bs[i].start <= bs[j].start
  }

  /** A laminar family of proper blocks, each known by its start. */
  ghost predicate LaminarFamily(bs: seq<Block>)
  {
    && (forall i, j :: 0 <= i < |bs| && 0 <= j < |bs| ==> Laminar(bs[i], bs[j]))
    && (forall i, j :: 0 <= i < |bs| && 0 <= j < |bs| && bs[i].start == bs[j].start ==> bs[i] == bs[j])
    && (forall i :: 0 <= i < |bs| ==> Reaches(bs[i], bs[i].start))
  }

  /** No other block of the family encloses it. */
  ghost predicate Outermost(b: Block, bs: seq<Block>)
  {
    b in bs && forall i :: 0 <= i < |bs| && bs[i].start < b.start ==> !Reaches(bs[i], b.start)
  }

  /** Each block ends before the next begins; so only the last can be unclosed. */
  ghost predicate Separate(top: seq<Block>)
  {
    forall i, j :: 0 <= i < j < |top| ==> top[i].end.Some? && top[i].end.value <= top[j].start
  }

  /** Nothing seen so far extends beyond the last block kept. */
  ghost predicate Bounded(bs: seq<Block>, top: seq<Block>)
  {
    bs != [] ==>
      (top != []
       && forall i :: 0 <= i < |bs| ==>
            top[|top| - 1].end.None? || (bs[i].end.Some? && bs[i].end.value <= top[|top| - 1].end.value))
  }

  ghost predicate KeptExactly(bs: seq<Block>, top: seq<Block>)
  {
    forall b :: b in top <==> Outermost(b, bs)
  }

  lemma OutermostGrows(bs: seq<Block>, b: Block, x: Block)
    requires Ascending(bs + [b]) && LaminarFamily(bs + [b])
    ensures x != b ==> (Outermost(x, bs + [b]) <==> Outermost(x, bs))
    ensures Outermost(b, bs + [b]) <==> forall i :: 0 <= i < |bs| && bs[i].start < b.start ==> !Reaches(bs[i], b.start)
  {
    var whole := bs + [b];
    assert whole[|bs|] == b;
    assert forall i :: 0 <= i < |bs| ==> whole[i] == bs[i];
    if x in bs {
      var k :| 0 <= k < |bs| && bs[k] == x;
      assert whole[k].start <= whole[|bs|].start;
    }
  }

  lemma SkipStep(bs: seq<Block>, b: Block, top: seq<Block>)
    requires Ascending(bs + [b]) && LaminarFamily(bs + [b])
    requires Separate(top) && Bounded(bs, top) && KeptExactly(bs, top) && Covered(top, b)
    ensures Bounded(bs + [b], top) && KeptExactly(bs + [b], top)
  {
    var whole, last := bs + [b], top[|top| - 1];
    assert last in top;
    var k :| 0 <= k < |bs| && bs[k] == last;
    assert whole[k] == last && whole[|bs|] == b && last.start <= b.start;
    assert Laminar(whole[k], whole[|bs|]);
    assert forall i :: 0 <= i < |bs| ==> whole[i] == bs[i];
    forall x ensures x in top <==> Outermost(x, whole) {
      OutermostGrows(bs, b, x);
      if x == b && last.start == b.start {
        assert whole[k] == whole[|bs|];
      }
    }
  }

  lemma KeepStep(bs: seq<Block>, b: Block, top: seq<Block>)
    requires Ascending(bs + [b]) && LaminarFamily(bs + [b])
    requires Separate(top) && Bounded(bs, top) && KeptExactly(bs, top) && !Covered(top, b)
    ensures Separate(top + [b]) && Bounded(bs + [b], top + [b]) && KeptExactly(bs + [b], top + [b])
  {
    var whole, grown := bs + [b], top + [b];
    assert whole[|bs|] == b;
    assert forall i :: 0 <= i < |bs| ==> whole[i] == bs[i];
    assert Reaches(b, b.start);
    forall i | 0 <= i < |bs| ensures bs[i].end.Some? && bs[i].end.value <= b.start {
      assert top != [];
    }
    forall i | 0 <= i < |top| ensures top[i].end.Some? && top[i].end.value <= b.start {
      assert top[i] in top;
      assert Outermost(top[i], bs);
    }
    forall x ensures x in grown <==> Outermost(x, whole) {
      OutermostGrows(bs, b, x);
    }
  }

  lemma {:induction false} TopLevelIsOutermost(bs: seq<Block>)
    requires Ascending(bs) && LaminarFamily(bs)
    ensures Separate(TopLevel(bs)) && Bounded(bs, TopLevel(bs)) && KeptExactly(bs, TopLevel(bs))
    decreases |bs|
  {
    if bs != [] {
      var before, b := bs[..|bs| - 1], bs[|bs| - 1];
      assert before + [b] == bs;
      assert Ascending(before) && LaminarFamily(before);
      hide Separate, Bounded, KeptExactly, Covered, Ascending, LaminarFamily;
      TopLevelIsOutermost(before);
      if Covered(TopLevel(before), b) {
        SkipStep(before, b, TopLevel(before));
      } else {
        KeepStep(before, b, TopLevel(before));
      }
    }
  }

  // ---- sorting -------------------------------------------------------------------------------

  lemma {:induction false} InsertSorts(b: Block, bs: seq<Block>)
    requires Ascending(bs)
    ensures Ascending(InsertBlock(b, bs)) && forall x :: x in InsertBlock(b, bs) <==> x == b || x in bs
  {
    if bs != [] && b.start >= bs[0].start {
      InsertSorts(b, bs[1..]);
      var r := InsertBlock(b, bs[1..]);
      assert bs == [bs[0]] + bs[1..];
      forall j | 0 <= j < |r| ensures bs[0].start <= r[j].start {
        assert r[j] in r;
        if r[j] != b {
          var k :| 0 <= k < |bs[1..]| && bs[1..][k] == r[j];
          assert bs[k + 1] == r[j];
        }
      }
    }
  }

  lemma {:induction false} SortSorts(bs: seq<Block>)
    ensures Ascending(SortBlocks(bs)) && forall x :: x in SortBlocks(bs) <==> x in bs
    decreases |bs|
  {
    if bs != [] {
      SortSorts(bs[..|bs| - 1]);
      InsertSorts(bs[|bs| - 1], SortBlocks(bs[..|bs| - 1]));
      assert bs == bs[..|bs| - 1] + [bs[|bs| - 1]];
    }
  }

  // ---- the theorem -----------------------------------------------------------------------------

  /** No key-bearing brace of the text encloses this one. */
  ghost predicate OutermostIn(text: string, b: Block)
  {
    IsBlock(text, b) && forall o :: IsBlock(text, o) && o.start < b.start ==> !Reaches(o, b.start)
  }

  /** For every text the result holds exactly the outermost key-bearing braces, in order, each ending before the
      next begins, so that an unclosed one can only come last. */
  lemma BlocksAreExact(text: string)
    ensures var top := TopLevel(SortBlocks(Family(text)));
            Separate(top) && forall b :: b in top <==> OutermostIn(text, b)
  {
    var bs := SortBlocks(Family(text));
    SortSorts(Family(text));
    forall b ensures b in bs <==> IsBlock(text, b) {
      FamilyIsExact(text, b);
    }
    SortedIsLaminar(text, bs);
    TopLevelIsOutermost(bs);
    forall b ensures Outermost(b, bs) <==> OutermostIn(text, b) {
      OutermostMeansSo(text, bs, b);
    }
  }

  lemma SortedIsLaminar(text: string, bs: seq<Block>)
    requires forall b :: b in bs <==> IsBlock(text, b)
    ensures LaminarFamily(bs)
  {
    forall i, j | 0 <= i < |bs| && 0 <= j < |bs|
      ensures Laminar(bs[i], bs[j]) && (bs[i].start == bs[j].start ==> bs[i] == bs[j])
    {
      assert bs[i] in bs && bs[j] in bs;
      FamilyIsLaminar(text, bs[i], bs[j]);
      if bs[i].start == bs[j].start {
        SameStart(text, bs[i], bs[j]);
      }
    }
    forall i | 0 <= i < |bs| ensures Reaches(bs[i], bs[i].start) {
      assert bs[i] in bs;
      BlockIsOpened(text, bs[i]);
    }
  }

  lemma OutermostMeansSo(text: string, bs: seq<Block>, b: Block)
    requires forall x :: x in bs <==> IsBlock(text, x)
    ensures Outermost(b, bs) <==> OutermostIn(text, b)
  {
    if Outermost(b, bs) {
      forall o | IsBlock(text, o) && o.start < b.start ensures !Reaches(o, b.start) {
        var i :| 0 <= i < |bs| && bs[i] == o;
      }
    }
    if OutermostIn(text, b) {
      forall i | 0 <= i < |bs| && bs[i].start < b.start ensures !Reaches(bs[i], b.start) {
        assert bs[i] in bs;
      }
    }
  }
}
