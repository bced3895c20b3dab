/** The blocks of an accepted line form a tree: any two are nested or disjoint, levels are nesting
    depths, and no bracket is without its block. */
module MaterialTree {
  import opened Text
  import opened BracketWords
  import opened MaterialBlocks

  ghost predicate Encloses(outer: BlockView, inner: BlockView)
    requires outer.end.Some? && inner.end.Some?
  {
    outer.start < inner.start && inner.end.value < outer.end.value
  }

  ghost predicate Apart(b: BlockView, c: BlockView)
    requires b.end.Some? && c.end.Some?
  {
    b.end.value < c.start || c.end.value < b.start
  }

  // ---------- depths inside and just after a block ----------

  lemma DepthInside(b: BlockView, line: string, delims: set<char>, q: nat)
    requires ClosedBlock(b, line, delims) && b.start < q <= b.end.value
    ensures OpenStack(line[..q]).Some? && |OpenStack(line[..q]).value| >= b.level
    ensures q == b.end.value ==> |OpenStack(line[..q]).value| == b.level
  {
    var inner := line[b.start + 1..b.end.value];
    OpenStackPrefix(inner, q - b.start - 1);
    assert inner[..q - b.start - 1] == line[b.start + 1..q];
    DeeperInside(line, b.start, q);
  }

  lemma DepthAfter(b: BlockView, line: string, delims: set<char>)
    requires ClosedBlock(b, line, delims)
    requires OpenStack(line[..b.end.value + 1]).Some?
    ensures |OpenStack(line[..b.end.value + 1]).value| == b.level - 1
  {
    var e := b.end.value;
    DepthInside(b, line, delims, e);
    OpenStackSnoc(line[..e], line[e]);
    assert line[..e] + [line[e]] == line[..e + 1];
  }

  lemma BlockFacts(b: BlockView, line: string, delims: set<char>)
    requires ClosedBlock(b, line, delims) && Closed(line)
    ensures forall q: nat :: b.start < q <= b.end.value ==>
              q <= |line| && OpenStack(line[..q]).Some? && |OpenStack(line[..q]).value| >= b.level
    ensures OpenStack(line[..b.end.value]).Some? && |OpenStack(line[..b.end.value]).value| == b.level
    ensures OpenStack(line[..b.end.value + 1]).Some? && |OpenStack(line[..b.end.value + 1]).value| == b.level - 1
  {
    forall q: nat | b.start < q <= b.end.value
      ensures OpenStack(line[..q]).Some? && |OpenStack(line[..q]).value| >= b.level
    {
      DepthInside(b, line, delims, q);
    }
    DepthInside(b, line, delims, b.end.value);
    OpenStackPrefix(line, b.end.value + 1);
    DepthAfter(b, line, delims);
  }

  lemma SeenAt(b: BlockView, q: nat, line: string)
    requires b.end.Some? && q <= |line|
    requires forall q: nat :: b.start < q <= b.end.value ==>
               q <= |line| && OpenStack(line[..q]).Some? && |OpenStack(line[..q]).value| >= b.level
    ensures b.start < q <= b.end.value ==> OpenStack(line[..q]).Some? && |OpenStack(line[..q]).value| >= b.level
  {
  }

  /** Two blocks of one accepted line: equal, nested with the inner one deeper, or disjoint. */
  lemma NestedOrDisjoint(b: BlockView, c: BlockView, line: string, delims: set<char>)
    requires ClosedBlock(b, line, delims) && ClosedBlock(c, line, delims) && Closed(line)
    requires b.start <= c.start
    ensures b.start == c.start ==> b.end == c.end && b.level == c.level
    ensures b.start < c.start ==> Apart(b, c) || (Encloses(b, c) && b.level < c.level)
  {
    BlockFacts(b, line, delims);
    BlockFacts(c, line, delims);
    SeenAt(b, c.end.value + 1, line);
    SeenAt(c, b.end.value + 1, line);
    SeenAt(b, c.start, line);
  }

  // ---------- the scan leaves no gaps ----------

  ghost predicate HasBlock(st: Scan, p: int) {
    || (exists k :: 0 <= k < |st.open| && st.open[k].start == p)
    || (exists k :: 0 <= k < |st.closed| && st.closed[k].start == p)
  }

  /** The block one level up: still open under b, or closed around it. */
  ghost predicate HasParent(st: Scan, b: BlockView)
    requires b.end.Some? && b.level >= 2
    requires forall k :: 0 <= k < |st.closed| ==> st.closed[k].end.Some?
  {
    || (b.level - 1 <= |st.open| && st.open[b.level - 2].start < b.start)
    || exists k :: 0 <= k < |st.closed| && st.closed[k].level == b.level - 1 && Encloses(st.closed[k], b)
  }

  ghost predicate EndsBefore(closed: seq<BlockView>, n: nat) {
    && (forall k :: 0 <= k < |closed| ==> closed[k].end.Some? && closed[k].end.value < n)
    && (forall j, k :: 0 <= j < k < |closed| ==> closed[j].end.value < closed[k].end.value)
  }

  ghost predicate NoGaps(line: string, n: nat, st: Scan)
    requires n <= |line|
  {
    && EndsBefore(st.closed, n)
    && (forall p :: 0 <= p < n && IsOpen(line[p]) ==> HasBlock(st, p))
    && (forall k :: 0 <= k < |st.closed| && st.closed[k].level >= 2 ==> HasParent(st, st.closed[k]))
  }

  /** What closing a bracket does to the two lists. */
  ghost predicate Closes(st: Scan, st': Scan, n: nat) {
    var top := |st.open| - 1;
    && top >= 0
    && st'.open == st.open[..top]
    && |st'.closed| == |st.closed| + 1 && st'.closed[..|st.closed|] == st.closed
    && var b := st'.closed[|st.closed|];
    && b.start == st.open[top].start && b.level == st.open[top].level && b.end == Some(n)
  }

  ghost predicate Stacked(st: Scan) {
    && (forall k :: 0 <= k < |st.open| ==> st.open[k].level == k + 1)
    && (forall j, k :: 0 <= j < k < |st.open| ==> st.open[j].start < st.open[k].start)
  }

  lemma BlockSurvivesClose(n: nat, st: Scan, st': Scan, p: int)
    requires Closes(st, st', n) && HasBlock(st, p)
    ensures HasBlock(st', p)
  {
    var top := |st.open| - 1;
    if k :| 0 <= k < |st.open| && st.open[k].start == p {
      if k == top {
        assert st'.closed[|st.closed|].start == p;
      } else {
        assert st'.open[k].start == p;
      }
    } else {
      var k :| 0 <= k < |st.closed| && st.closed[k].start == p;
      assert st'.closed[k] == st'.closed[..|st.closed|][k];
    }
  }

  lemma BlocksSurviveClose(line: string, n: nat, st: Scan, st': Scan)
    requires n < |line| && !IsOpen(line[n]) && Closes(st, st', n)
    requires forall p :: 0 <= p < n && IsOpen(line[p]) ==> HasBlock(st, p)
    ensures forall p :: 0 <= p < n + 1 && IsOpen(line[p]) ==> HasBlock(st', p)
  {
    forall p | 0 <= p < n && IsOpen(line[p])
      ensures HasBlock(st', p)
    {
      BlockSurvivesClose(n, st, st', p);
    }
  }

  lemma EndsAfterClose(n: nat, st: Scan, st': Scan)
    requires EndsBefore(st.closed, n) && Closes(st, st', n)
    ensures EndsBefore(st'.closed, n + 1)
  {
    assert st'.closed == st.closed + [st'.closed[|st.closed|]];
  }

  lemma CloseLeavesNoGaps(line: string, n: nat, st: Scan, st': Scan)
    requires n < |line| && !IsOpen(line[n]) && NoGaps(line, n, st) && Stacked(st) && Closes(st, st', n)
    ensures NoGaps(line, n + 1, st')
  {
    var top := |st.open| - 1;
    assert forall k :: 0 <= k < |st.closed| ==> st'.closed[k] == st'.closed[..|st.closed|][k];
    EndsAfterClose(n, st, st');
    BlocksSurviveClose(line, n, st, st');
    forall k | 0 <= k < |st'.closed| && st'.closed[k].level >= 2
      ensures HasParent(st', st'.closed[k])
    {
      if k == |st.closed| {
        assert st'.open[top - 1].start < st.open[top].start;
      } else {
        ParentSurvivesClose(line, n, st, st', k);
      }
    }
  }

  lemma ParentSurvivesClose(line: string, n: nat, st: Scan, st': Scan, k: nat)
    requires n < |line| && NoGaps(line, n, st) && Stacked(st) && Closes(st, st', n)
    requires k < |st.closed| && st.closed[k].level >= 2
    requires forall j :: 0 <= j < |st'.closed| ==> st'.closed[j].end.Some?
    ensures HasParent(st', st.closed[k])
  {
    var c, top := st.closed[k], |st.open| - 1;
    assert HasParent(st, c);
    if c.level - 1 <= |st.open| && st.open[c.level - 2].start < c.start {
      if c.level - 2 == top {
        assert Encloses(st'.closed[|st.closed|], c);
      } else {
        assert st'.open[c.level - 2].start < c.start;
      }
    } else {
      var j :| 0 <= j < |st.closed| && st.closed[j].level == c.level - 1 && Encloses(st.closed[j], c);
      assert st'.closed[j] == st'.closed[..|st.closed|][j] == st.closed[j];
    }
  }

  lemma SlicePrefix(s: string, a: nat, e: nat, m: nat)
    requires a <= e <= |s| && m <= e - a
    ensures s[a..e][..m] == s[a..a + m]
  {
  }

  /** Inside an unfinished block everything is deeper than its bracket. */
  lemma DeeperInside(line: string, c: nat, b: nat)
    requires c < b <= |line| && IsOpen(line[c]) && OpenStack(line[..c]).Some? && OpenStack(line[c + 1..b]).Some?
    ensures OpenStack(line[..b]) ==
              Some(OpenStack(line[..c]).value + [CheckBracket(line[c]).value] + OpenStack(line[c + 1..b]).value)
  {
    OpenStackSnoc(line[..c], line[c]);
    assert line[..c] + [line[c]] == line[..c + 1];
    OpenStackConcat(line[..c + 1], line[c + 1..b]);
    assert line[..c + 1] + line[c + 1..b] == line[..b];
  }

  /** A bracket at c still open at n lies after every bracket at b < n of smaller depth. */
  lemma DeeperIsLater(line: string, b: nat, c: nat, n: nat)
    requires b < n <= |line| && c < n && IsOpen(line[c])
    requires OpenStack(line[..b]).Some? && OpenStack(line[..c]).Some? && OpenStack(line[c + 1..n]).Some?
    requires |OpenStack(line[..b]).value| < |OpenStack(line[..c]).value|
    ensures b < c
  {
    if c < b {
      OpenStackPrefix(line[c + 1..n], b - c - 1);
      SlicePrefix(line, c + 1, n, b - c - 1);
      DeeperInside(line, c, b);
    }
  }

  lemma ScanStacked(line: string, delims: set<char>, n: nat, st: Scan)
    requires n <= |line| && ScanOk(line, delims, n, st)
    ensures Stacked(st)
  {
    var types := OpenStack(line[..n]).value;
    forall j, k | 0 <= j < k < |st.open|
      ensures st.open[j].start < st.open[k].start
    {
      assert OpenBlock(st.open[j], line, delims, n, types, j) && OpenBlock(st.open[k], line, delims, n, types, k);
      DeeperIsLater(line, st.open[j].start, st.open[k].start, n);
    }
  }

  lemma ScanStackedAt(line: string, delims: set<char>, n: nat)
    requires n <= |line| && ScanTo(line, delims, n).Some?
    ensures Stacked(ScanTo(line, delims, n).value)
  {
    ScanToOk(line, delims, n);
    ScanStacked(line, delims, n, ScanTo(line, delims, n).value);
  }

  lemma StepCloses(line: string, delims: set<char>, n: nat, st: Scan, st': Scan)
    requires n < |line| && IsClose(line[n]) && ScanStep(line, delims, st, n) == Some(st')
    ensures Closes(st, st', n)
  {
  }

  lemma {:induction false} ScanLeavesNoGaps(line: string, delims: set<char>, n: nat)
    requires n <= |line| && ScanTo(line, delims, n).Some?
    ensures NoGaps(line, n, ScanTo(line, delims, n).value)
  {
    if n > 0 {
      var st, st' := ScanTo(line, delims, n - 1).value, ScanTo(line, delims, n).value;
      ScanLeavesNoGaps(line, delims, n - 1);
      ScanStackedAt(line, delims, n - 1);
      StepLeavesNoGaps(line, delims, n - 1, st, st');
    }
  }

  lemma StepLeavesNoGaps(line: string, delims: set<char>, n: nat, st: Scan, st': Scan)
    requires n < |line| && NoGaps(line, n, st) && Stacked(st) && ScanStep(line, delims, st, n) == Some(st')
    ensures NoGaps(line, n + 1, st')
  {
    if IsClose(line[n]) {
      StepCloses(line, delims, n, st, st');
      CloseLeavesNoGaps(line, n, st, st');
    } else {
      OtherLeavesNoGaps(line, delims, n, st, st');
    }
  }

  lemma OtherLeavesNoGaps(line: string, delims: set<char>, n: nat, st: Scan, st': Scan)
    requires n < |line| && NoGaps(line, n, st)
    requires !IsClose(line[n]) && ScanStep(line, delims, st, n) == Some(st')
    ensures NoGaps(line, n + 1, st')
  {
    assert st'.closed == st.closed;
    assert forall k :: 0 <= k < |st.open| ==> st'.open[k].start == st.open[k].start;
    forall p | 0 <= p < n + 1 && IsOpen(line[p])
      ensures HasBlock(st', p)
    {
      if p == n {
        assert st'.open[|st.open|].start == n;
      } else {
        assert HasBlock(st, p);
        if k :| 0 <= k < |st.open| && st.open[k].start == p {
          assert st'.open[k].start == p;
        }
      }
    }
    forall k | 0 <= k < |st.closed| && st.closed[k].level >= 2
      ensures HasParent(st', st'.closed[k])
    {
      assert HasParent(st, st.closed[k]);
    }
  }

  // ---------- main results ----------

  ghost predicate NestedLevels(b: BlockView, c: BlockView)
    requires b.end.Some? && c.end.Some?
  {
    || Apart(b, c)
    || (Encloses(b, c) && b.level < c.level)
    || (Encloses(c, b) && c.level < b.level)
  }

  /** Every opening bracket has a block, blocks are pairwise nested or disjoint, and every block of
      level k + 1 lies inside a block of level k. */
  ghost predicate Forest(line: string, blocks: seq<BlockView>) {
    && (forall k :: 0 <= k < |blocks| ==> blocks[k].end.Some? && blocks[k].start < blocks[k].end.value)
    && (forall p :: 0 <= p < |line| && IsOpen(line[p]) ==> exists k :: 0 <= k < |blocks| && blocks[k].start == p)
    && (forall j, k :: 0 <= j < k < |blocks| ==> NestedLevels(blocks[j], blocks[k]))
    && (forall k :: 0 <= k < |blocks| && blocks[k].level >= 2 ==>
          exists j :: 0 <= j < |blocks| && blocks[j].level == blocks[k].level - 1 && Encloses(blocks[j], blocks[k]))
  }

  lemma PairNested(b: BlockView, c: BlockView, line: string, delims: set<char>)
    requires ClosedBlock(b, line, delims) && ClosedBlock(c, line, delims) && Closed(line) && b.end != c.end
    ensures NestedLevels(b, c)
  {
    if b.start <= c.start {
      NestedOrDisjoint(b, c, line, delims);
    } else {
      NestedOrDisjoint(c, b, line, delims);
    }
  }

  lemma NoGapsForest(line: string, delims: set<char>, st: Scan)
    requires NoGaps(line, |line|, st) && st.open == [] && ClosedBlocks(st.closed, line, delims) && Closed(line)
    ensures Forest(line, st.closed)
  {
    forall p | 0 <= p < |line| && IsOpen(line[p])
      ensures exists k :: 0 <= k < |st.closed| && st.closed[k].start == p
    {
      assert HasBlock(st, p);
    }
    forall j, k | 0 <= j < k < |st.closed|
      ensures NestedLevels(st.closed[j], st.closed[k])
    {
      PairNested(st.closed[j], st.closed[k], line, delims);
    }
    forall k | 0 <= k < |st.closed| && st.closed[k].level >= 2
      ensures exists j ::
                && 0 <= j < |st.closed| && st.closed[j].level == st.closed[k].level - 1
                && Encloses(st.closed[j], st.closed[k])
    {
      assert HasParent(st, st.closed[k]);
    }
  }

  lemma TreeIsForest(line: string, delims: set<char>)
    requires Tree(line, delims).Some?
    ensures |Tree(line, delims).value| > 0
    ensures Forest(line, Tree(line, delims).value[..|Tree(line, delims).value| - 1])
  {
    TreeAccepts(line, delims);
    ClosedIffBalanced(line);
    ScanLeavesNoGaps(line, delims, |line|);
    ScanToOk(line, delims, |line|);
    var st := ScanTo(line, delims, |line|).value;
    assert Tree(line, delims).value[..|st.closed|] == st.closed;
    NoGapsForest(line, delims, st);
  }

  ghost predicate AncestorAt(blocks: seq<BlockView>, k: nat, level: nat, j: int)
    requires k < |blocks| && forall i :: 0 <= i < |blocks| ==> blocks[i].end.Some?
  {
    0 <= j < |blocks| && blocks[j].level == level && Encloses(blocks[j], blocks[k])
  }

  lemma AncestorUnique(line: string, blocks: seq<BlockView>, k: nat, level: nat, i: nat, j: nat)
    requires Forest(line, blocks) && k < |blocks|
    requires AncestorAt(blocks, k, level, i) && AncestorAt(blocks, k, level, j)
    ensures i == j && level < blocks[k].level
  {
    assert if i < k then NestedLevels(blocks[i], blocks[k]) else NestedLevels(blocks[k], blocks[i]);
  }

  lemma {:induction false} AncestorExists(line: string, blocks: seq<BlockView>, k: nat, level: nat) returns (j: nat)
    requires Forest(line, blocks) && k < |blocks| && 1 <= level < blocks[k].level
    ensures AncestorAt(blocks, k, level, j)
    decreases blocks[k].level
  {
    var parent :|
      && 0 <= parent < |blocks| && blocks[parent].level == blocks[k].level - 1
      && Encloses(blocks[parent], blocks[k]);
    if level < blocks[parent].level {
      j := AncestorExists(line, blocks, parent, level);
    } else {
      j := parent;
    }
  }

  /** In such a forest a block's level is its nesting depth: there is exactly one enclosing block on
      every level from 1 to level - 1, and none deeper. */
  lemma LevelIsDepth(line: string, blocks: seq<BlockView>, k: nat, level: nat)
    requires Forest(line, blocks) && k < |blocks| && 1 <= level
    ensures level < blocks[k].level <==> exists j :: AncestorAt(blocks, k, level, j)
    ensures forall i, j :: AncestorAt(blocks, k, level, i) && AncestorAt(blocks, k, level, j) ==> i == j
  {
    if level < blocks[k].level {
      var j := AncestorExists(line, blocks, k, level);
    }
    forall i, j | AncestorAt(blocks, k, level, i) && AncestorAt(blocks, k, level, j)
      ensures i == j && level < blocks[k].level
    {
      AncestorUnique(line, blocks, k, level, i, j);
    }
  }
}
