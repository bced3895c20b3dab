/** What the block tree of a material line is (processors/materials/parser.py, _symbols_tree): the
    values the scanner builds, and the declarative meaning of every field. */
module MaterialBlocks {
  import opened Text
  import opened BracketWords

  /** The fields of a Block, as a value. `delims` maps a delimiter to the positions recorded for it. */
  datatype BlockView = BlockView(
    btype: BracketType,
    level: nat,
    start: int,
    end: Option<int>,
    text: Option<string>,
    delims: map<char, seq<int>>,
    maxDelimiter: Option<char>,
    maxCount: nat)

  function NewBlock(btype: BracketType, level: nat, start: int, end: Option<int>): BlockView {
    BlockView(btype, level, start, end, None, map[], None, 0)
  }

  function AddDelim(b: BlockView, d: char, i: int): BlockView {
    var positions := (if d in b.delims then b.delims[d] else []) + [i];
    var b' := b.(delims := b.delims[d := positions]);
    if |positions| > b.maxCount then b'.(maxCount := |positions|, maxDelimiter := Some(d)) else b'
  }

  /** The scanner between two symbols: open blocks, the block of the whole line, blocks closed so far. */
  datatype Scan = Scan(open: seq<BlockView>, general: BlockView, closed: seq<BlockView>)

  function StartScan(line: string): Scan {
    Scan([], NewBlock(Empty, 0, -1, Some(|line|)).(text := Some(line)), [])
  }

  function ScanStep(line: string, delims: set<char>, st: Scan, i: nat): Option<Scan>
    requires i < |line|
  {
    var c := line[i];
    if IsOpen(c) then
      Some(st.(open := st.open + [NewBlock(CheckBracket(c).value, |st.open| + 1, i, None)]))
    else if IsClose(c) then
      if st.open == [] || CheckBracket(c).value != st.open[|st.open| - 1].btype then None
      else
        var b := st.open[|st.open| - 1];
        var text := if 0 <= b.start < i then line[b.start + 1..i] else [];
        Some(st.(open := st.open[..|st.open| - 1],
                 closed := st.closed + [b.(end := Some(i), text := Some(text))]))
    else if c in delims then
      if st.open != [] then
        Some(st.(open := st.open[..|st.open| - 1] + [AddDelim(st.open[|st.open| - 1], c, i)]))
      else
        Some(st.(general := AddDelim(st.general, c, i)))
    else Some(st)
  }

  function ScanTo(line: string, delims: set<char>, n: nat): Option<Scan>
    requires n <= |line|
  {
    if n == 0 then Some(StartScan(line))
    else
      match ScanTo(line, delims, n - 1)
      case None => None
      case Some(st) => ScanStep(line, delims, st, n - 1)
  }

  // ---------- what the fields mean ----------

  /** The positions of d in line[a..e] that no bracket opened after a still encloses. */
  function Tops(line: string, a: nat, e: nat, d: char): seq<int>
    requires a <= e <= |line|
    decreases e - a
  {
    if a == e then []
    else
      var before := Tops(line, a, e - 1, d);
      if line[e - 1] == d && Closed(line[a..e - 1]) then before + [e - 1] else before
  }

  lemma {:induction false} TopsMeaning(line: string, a: nat, e: nat, d: char)
    requires a <= e <= |line|
    ensures forall p: nat :: p in Tops(line, a, e, d) <==> a <= p < e && line[p] == d && Closed(line[a..p])
    ensures forall j :: 0 <= j < |Tops(line, a, e, d)| ==> a <= Tops(line, a, e, d)[j] < e
    ensures forall j, k :: 0 <= j < k < |Tops(line, a, e, d)| ==> Tops(line, a, e, d)[j] < Tops(line, a, e, d)[k]
    decreases e - a
  {
    if a < e {
      TopsMeaning(line, a, e - 1, d);
    }
  }

  /** b records exactly the delimiters of line[a..e] that belong to no inner block. */
  ghost predicate Tallies(b: BlockView, line: string, delims: set<char>, a: nat, e: nat)
    requires a <= e <= |line|
  {
    && (forall d :: d in b.delims <==> d in delims && !IsBracket(d) && Tops(line, a, e, d) != [])
    && (forall d :: d in b.delims ==> b.delims[d] == Tops(line, a, e, d))
  }

  /** The stored favourite is the most frequent delimiter, the one that got there first on a tie. */
  ghost predicate Majority(b: BlockView) {
    && (b.maxDelimiter.None? <==> b.delims == map[])
    && (b.maxDelimiter.None? ==> b.maxCount == 0)
    && (b.maxDelimiter.Some? ==>
          && b.maxDelimiter.value in b.delims
          && |b.delims[b.maxDelimiter.value]| == b.maxCount > 0
          && forall d :: d in b.delims && d != b.maxDelimiter.value ==> Behind(b, d))
  }

  ghost predicate Behind(b: BlockView, d: char)
    requires d in b.delims && b.maxDelimiter.Some? && b.maxDelimiter.value in b.delims
    requires |b.delims[b.maxDelimiter.value]| == b.maxCount > 0
  {
    var m := b.delims[b.maxDelimiter.value];
    var p := b.delims[d];
    && 0 < |p| <= |m|
    && (|p| == |m| ==> m[|m| - 1] < p[|p| - 1])
  }

  /** A finished bracket block: a matching pair around a balanced text, at its nesting depth. */
  ghost predicate ClosedBlock(b: BlockView, line: string, delims: set<char>) {
    && b.end.Some?
    && 0 <= b.start < b.end.value < |line|
    && IsOpen(line[b.start]) && IsClose(line[b.end.value])
    && CheckBracket(line[b.start]) == Some(b.btype) == CheckBracket(line[b.end.value])
    && Closed(line[b.start + 1..b.end.value])
    && OpenStack(line[..b.start]).Some? && b.level == |OpenStack(line[..b.start]).value| + 1
    && b.text == Some(line[b.start + 1..b.end.value])
    && Tallies(b, line, delims, b.start + 1, b.end.value)
    && Majority(b)
  }

  /** A block opened before n and not closed yet, k-th from the bottom of the stack `types`. */
  ghost predicate OpenBlock(b: BlockView, line: string, delims: set<char>, n: nat, types: seq<BracketType>, k: nat)
    requires n <= |line| && k < |types|
  {
    && b.end.None? && b.text.None? && b.level == k + 1
    && 0 <= b.start < n
    && IsOpen(line[b.start]) && CheckBracket(line[b.start]) == Some(b.btype) && b.btype == types[k]
    && OpenStack(line[..b.start]) == Some(types[..k])
    && OpenStack(line[b.start + 1..n]) == Some(types[k + 1..])
    && Tallies(b, line, delims, b.start + 1, n)
    && Majority(b)
  }

  ghost predicate GeneralBlock(b: BlockView, line: string, delims: set<char>, n: nat)
    requires n <= |line|
  {
    && b.btype == Empty && b.level == 0 && b.start == -1 && b.end == Some(|line|) && b.text == Some(line)
    && Tallies(b, line, delims, 0, n)
    && Majority(b)
  }

  ghost predicate ScanOk(line: string, delims: set<char>, n: nat, st: Scan)
    requires n <= |line|
  {
    && OpenStack(line[..n]).Some?
    && |OpenStack(line[..n]).value| == |st.open|
    && OpenBlocks(st.open, line, delims, n, OpenStack(line[..n]).value)
    && GeneralBlock(st.general, line, delims, n)
    && ClosedBlocks(st.closed, line, delims)
  }

  ghost predicate OpenBlocks(open: seq<BlockView>, line: string, delims: set<char>, n: nat, types: seq<BracketType>)
    requires n <= |line| && |open| == |types|
  {
    forall k :: 0 <= k < |open| ==> OpenBlock(open[k], line, delims, n, types, k)
  }

  ghost predicate ClosedBlocks(closed: seq<BlockView>, line: string, delims: set<char>) {
    forall k :: 0 <= k < |closed| ==> ClosedBlock(closed[k], line, delims)
  }

  // ---------- one symbol at a time ----------

  lemma SliceSnoc(s: string, a: nat, e: nat)
    requires a <= e < |s|
    ensures s[a..e + 1] == s[a..e] + [s[e]]
    ensures OpenStack(s[a..e + 1]) == if OpenStack(s[a..e]).None? then None else Push(OpenStack(s[a..e]).value, s[e])
  {
    OpenStackSnoc(s[a..e], s[e]);
    assert s[a..e + 1] == s[a..e] + [s[e]];
  }

  /** A symbol that is no delimiter of this block leaves its record as it was. */
  lemma TalliesSkip(b: BlockView, line: string, delims: set<char>, a: nat, e: nat)
    requires a <= e < |line| && Tallies(b, line, delims, a, e)
    requires IsBracket(line[e]) || line[e] !in delims || !Closed(line[a..e])
    ensures Tallies(b, line, delims, a, e + 1)
  {
    forall d | d in delims && !IsBracket(d)
      ensures Tops(line, a, e + 1, d) == Tops(line, a, e, d)
    {
    }
  }

  lemma MajorityAdd(b: BlockView, c: char, i: int)
    requires Majority(b)
    requires forall d :: d in b.delims ==> b.delims[d] != [] && b.delims[d][|b.delims[d]| - 1] < i
    ensures Majority(AddDelim(b, c, i))
  {
    var b' := AddDelim(b, c, i);
    forall d | d in b'.delims && d != b'.maxDelimiter.value
      ensures Behind(b', d)
    {
      assert d in b.delims && d != b.maxDelimiter.value ==> Behind(b, d);
    }
  }

  lemma TopsGrow(line: string, a: nat, e: nat)
    requires a <= e < |line| && Closed(line[a..e])
    ensures forall d ::
              Tops(line, a, e + 1, d) == if d == line[e] then Tops(line, a, e, d) + [e] else Tops(line, a, e, d)
  {
  }

  lemma TalliesAdd(b: BlockView, line: string, delims: set<char>, a: nat, e: nat)
    requires a <= e < |line| && Tallies(b, line, delims, a, e) && Majority(b)
    requires !IsBracket(line[e]) && line[e] in delims && Closed(line[a..e])
    ensures Tallies(AddDelim(b, line[e], e), line, delims, a, e + 1)
    ensures Majority(AddDelim(b, line[e], e))
  {
    TopsGrow(line, a, e);
    forall d | d in b.delims
      ensures b.delims[d] != [] && b.delims[d][|b.delims[d]| - 1] < e
    {
      TopsMeaning(line, a, e, d);
    }
    MajorityAdd(b, line[e], e);
  }

  lemma FreshTallies(line: string, delims: set<char>, a: nat)
    requires a <= |line|
    ensures forall btype, level, start, end, text ::
              Tallies(NewBlock(btype, level, start, end).(text := text), line, delims, a, a)
  {
  }

  /** The next symbol is none of this block's own: a bracket, no delimiter, or inside an inner block. */
  lemma OpenBlockSkips(b: BlockView, line: string, delims: set<char>, n: nat,
                       types: seq<BracketType>, types': seq<BracketType>, k: nat)
    requires n < |line| && k < |types| && k < |types'| && OpenBlock(b, line, delims, n, types, k)
    requires types[..k + 1] == types'[..k + 1] && Push(types[k + 1..], line[n]) == Some(types'[k + 1..])
    requires IsBracket(line[n]) || line[n] !in delims || k + 1 < |types|
    ensures OpenBlock(b, line, delims, n + 1, types', k)
  {
    SliceSnoc(line, b.start + 1, n);
    TalliesSkip(b, line, delims, b.start + 1, n);
    assert types'[..k] == types'[..k + 1][..k] == types[..k];
    assert types'[k] == types'[..k + 1][k] == types[k];
  }

  /** The blocks below the top keep their records when the bracket types above them change. */
  lemma OpenBlocksSkip(open: seq<BlockView>, line: string, delims: set<char>, n: nat,
                       types: seq<BracketType>, types': seq<BracketType>, m: nat)
    requires n < |line| && |open| == |types| && OpenBlocks(open, line, delims, n, types)
    requires m <= |types| && m <= |types'| && Push(types, line[n]) == Some(types')
    requires IsBracket(line[n]) || line[n] !in delims || m < |types|
    ensures forall k :: 0 <= k < m ==> OpenBlock(open[k], line, delims, n + 1, types', k)
  {
    forall k | 0 <= k < m
      ensures OpenBlock(open[k], line, delims, n + 1, types', k)
    {
      assert types'[..k + 1] == types[..k + 1];
      if IsOpen(line[n]) {
        assert types'[k + 1..] == types[k + 1..] + [CheckBracket(line[n]).value];
      } else if IsClose(line[n]) {
        assert types'[k + 1..] == types[k + 1..][..|types[k + 1..]| - 1];
      }
      OpenBlockSkips(open[k], line, delims, n, types, types', k);
    }
  }

  lemma FreshOpenBlock(line: string, delims: set<char>, n: nat, types: seq<BracketType>)
    requires n < |line| && IsOpen(line[n]) && OpenStack(line[..n]) == Some(types)
    ensures OpenBlock(NewBlock(CheckBracket(line[n]).value, |types| + 1, n, None), line, delims, n + 1,
                      types + [CheckBracket(line[n]).value], |types|)
  {
    var t := CheckBracket(line[n]).value;
    assert line[n + 1..n + 1] == [];
    assert (types + [t])[..|types|] == types && (types + [t])[|types| + 1..] == [];
    FreshTallies(line, delims, n + 1);
    var b := NewBlock(t, |types| + 1, n, None);
    assert b == b.(text := None);
  }

  lemma OpenBlocksSnoc(open: seq<BlockView>, b: BlockView, line: string, delims: set<char>, n: nat,
                       types: seq<BracketType>)
    requires n <= |line| && |open| + 1 == |types|
    requires forall k :: 0 <= k < |open| ==> OpenBlock(open[k], line, delims, n, types, k)
    requires OpenBlock(b, line, delims, n, types, |open|)
    ensures OpenBlocks(open + [b], line, delims, n, types)
  {
    forall k | 0 <= k < |types|
      ensures OpenBlock((open + [b])[k], line, delims, n, types, k)
    {
      assert (open + [b])[k] == if k < |open| then open[k] else b;
    }
  }

  lemma OpenAfterOpen(open: seq<BlockView>, line: string, delims: set<char>, n: nat, types: seq<BracketType>)
    requires n < |line| && IsOpen(line[n]) && |open| == |types| && OpenBlocks(open, line, delims, n, types)
    requires OpenStack(line[..n]) == Some(types)
    ensures var t := CheckBracket(line[n]).value;
            OpenBlocks(open + [NewBlock(t, |open| + 1, n, None)], line, delims, n + 1, types + [t])
  {
    var t := CheckBracket(line[n]).value;
    OpenBlocksSkip(open, line, delims, n, types, types + [t], |types|);
    FreshOpenBlock(line, delims, n, types);
    OpenBlocksSnoc(open, NewBlock(t, |open| + 1, n, None), line, delims, n + 1, types + [t]);
  }

  lemma OpenAfterClose(open: seq<BlockView>, line: string, delims: set<char>, n: nat, types: seq<BracketType>)
    requires n < |line| && IsClose(line[n]) && |open| == |types| && OpenBlocks(open, line, delims, n, types)
    requires open != [] && CheckBracket(line[n]).value == types[|types| - 1]
    ensures OpenBlocks(open[..|open| - 1], line, delims, n + 1, types[..|types| - 1])
  {
    OpenBlocksSkip(open, line, delims, n, types, types[..|types| - 1], |types| - 1);
  }

  lemma TopCloses(b: BlockView, line: string, delims: set<char>, n: nat, types: seq<BracketType>)
    requires n < |line| && types != [] && OpenBlock(b, line, delims, n, types, |types| - 1)
    requires IsClose(line[n]) && CheckBracket(line[n]).value == b.btype
    ensures ClosedBlock(b.(end := Some(n), text := Some(line[b.start + 1..n])), line, delims)
  {
    assert types[|types|..] == [];
  }

  lemma OpenAfterOther(open: seq<BlockView>, line: string, delims: set<char>, n: nat, types: seq<BracketType>)
    requires n < |line| && |open| == |types| && OpenBlocks(open, line, delims, n, types)
    requires !IsBracket(line[n]) && line[n] !in delims
    ensures OpenBlocks(open, line, delims, n + 1, types)
  {
    OpenBlocksSkip(open, line, delims, n, types, types, |types|);
  }

  lemma TopCounts(b: BlockView, line: string, delims: set<char>, n: nat, types: seq<BracketType>)
    requires n < |line| && types != [] && OpenBlock(b, line, delims, n, types, |types| - 1)
    requires !IsBracket(line[n]) && line[n] in delims
    ensures OpenBlock(AddDelim(b, line[n], n), line, delims, n + 1, types, |types| - 1)
  {
    assert types[|types|..] == [];
    SliceSnoc(line, b.start + 1, n);
    TalliesAdd(b, line, delims, b.start + 1, n);
  }

  lemma BelowTop(open: seq<BlockView>, line: string, delims: set<char>, n: nat, types: seq<BracketType>)
    requires n < |line| && open != [] && |open| == |types| && OpenBlocks(open, line, delims, n, types)
    requires !IsBracket(line[n])
    ensures var below := open[..|open| - 1];
            forall k :: 0 <= k < |below| ==> OpenBlock(below[k], line, delims, n + 1, types, k)
  {
    OpenBlocksSkip(open, line, delims, n, types, types, |open| - 1);
  }

  lemma ReplaceTop(open: seq<BlockView>, counted: BlockView, line: string, delims: set<char>, n: nat,
                   types: seq<BracketType>)
    requires n < |line| && open != [] && |open| == |types| && OpenBlocks(open, line, delims, n, types)
    requires !IsBracket(line[n]) && OpenBlock(counted, line, delims, n + 1, types, |open| - 1)
    ensures OpenBlocks(open[..|open| - 1] + [counted], line, delims, n + 1, types)
  {
    BelowTop(open, line, delims, n, types);
    OpenBlocksSnoc(open[..|open| - 1], counted, line, delims, n + 1, types);
  }

  lemma OpenAfterDelim(open: seq<BlockView>, line: string, delims: set<char>, n: nat, types: seq<BracketType>)
    requires n < |line| && open != [] && |open| == |types| && OpenBlocks(open, line, delims, n, types)
    requires !IsBracket(line[n]) && line[n] in delims
    ensures var top := |open| - 1;
            OpenBlocks(open[..top] + [AddDelim(open[top], line[n], n)], line, delims, n + 1, types)
  {
    var top := |open| - 1;
    TopCounts(open[top], line, delims, n, types);
    ReplaceTop(open, AddDelim(open[top], line[n], n), line, delims, n, types);
  }

  lemma GeneralAfter(b: BlockView, line: string, delims: set<char>, n: nat)
    requires n < |line| && GeneralBlock(b, line, delims, n)
    ensures IsBracket(line[n]) || line[n] !in delims || !Closed(line[..n]) ==> GeneralBlock(b, line, delims, n + 1)
    ensures !IsBracket(line[n]) && line[n] in delims && Closed(line[..n]) ==>
              GeneralBlock(AddDelim(b, line[n], n), line, delims, n + 1)
  {
    assert line[0..n] == line[..n];
    if IsBracket(line[n]) || line[n] !in delims || !Closed(line[..n]) {
      TalliesSkip(b, line, delims, 0, n);
    } else {
      TalliesAdd(b, line, delims, 0, n);
    }
  }

  lemma PrefixSnoc(line: string, n: nat)
    requires n < |line|
    ensures OpenStack(line[..n + 1])
            == if OpenStack(line[..n]).None? then None else Push(OpenStack(line[..n]).value, line[n])
  {
    SliceSnoc(line, 0, n);
    assert line[0..n] == line[..n] && line[0..n + 1] == line[..n + 1];
  }

  lemma StepClose(line: string, delims: set<char>, n: nat, st: Scan)
    requires n < |line| && ScanOk(line, delims, n, st) && IsClose(line[n])
    ensures ScanStep(line, delims, st, n).Some? <==> OpenStack(line[..n + 1]).Some?
    ensures ScanStep(line, delims, st, n).Some? ==> ScanOk(line, delims, n + 1, ScanStep(line, delims, st, n).value)
  {
    PrefixSnoc(line, n);
    var types := OpenStack(line[..n]).value;
    if st.open != [] {
      assert OpenBlock(st.open[|types| - 1], line, delims, n, types, |types| - 1);
      if CheckBracket(line[n]).value == types[|types| - 1] {
        CloseTop(line, delims, n, st, types);
      }
    }
  }

  lemma CloseTop(line: string, delims: set<char>, n: nat, st: Scan, types: seq<BracketType>)
    requires n < |line| && ScanOk(line, delims, n, st) && IsClose(line[n]) && OpenStack(line[..n]) == Some(types)
    requires types != [] && OpenBlock(st.open[|types| - 1], line, delims, n, types, |types| - 1)
    requires CheckBracket(line[n]).value == types[|types| - 1]
    requires OpenStack(line[..n + 1]) == Some(types[..|types| - 1])
    ensures ScanStep(line, delims, st, n).Some? && ScanOk(line, delims, n + 1, ScanStep(line, delims, st, n).value)
  {
    var b := st.open[|types| - 1];
    var done := b.(end := Some(n), text := Some(line[b.start + 1..n]));
    TopCloses(b, line, delims, n, types);
    CloseGives(line, delims, n, st, types, done);
    OpenAfterClose(st.open, line, delims, n, types);
    GeneralAfter(st.general, line, delims, n);
    ClosedBlocksSnoc(st.closed, done, line, delims);
  }

  lemma CloseGives(line: string, delims: set<char>, n: nat, st: Scan, types: seq<BracketType>, done: BlockView)
    requires n < |line| && IsClose(line[n]) && |st.open| == |types| && types != []
    requires var b := st.open[|types| - 1];
             && 0 <= b.start < n && CheckBracket(line[n]).value == b.btype
             && done == b.(end := Some(n), text := Some(line[b.start + 1..n]))
    ensures ScanStep(line, delims, st, n) == Some(Scan(st.open[..|types| - 1], st.general, st.closed + [done]))
  {
  }

  lemma ClosedBlocksSnoc(closed: seq<BlockView>, b: BlockView, line: string, delims: set<char>)
    requires ClosedBlocks(closed, line, delims) && ClosedBlock(b, line, delims)
    ensures ClosedBlocks(closed + [b], line, delims)
  {
    forall k | 0 <= k <= |closed|
      ensures ClosedBlock((closed + [b])[k], line, delims)
    {
      assert (closed + [b])[k] == if k < |closed| then closed[k] else b;
    }
  }

  lemma StepOpen(line: string, delims: set<char>, n: nat, st: Scan)
    requires n < |line| && ScanOk(line, delims, n, st) && IsOpen(line[n])
    ensures ScanStep(line, delims, st, n).Some? && OpenStack(line[..n + 1]).Some?
    ensures ScanOk(line, delims, n + 1, ScanStep(line, delims, st, n).value)
  {
    PrefixSnoc(line, n);
    GeneralAfter(st.general, line, delims, n);
    OpenAfterOpen(st.open, line, delims, n, OpenStack(line[..n]).value);
  }

  lemma StepPlain(line: string, delims: set<char>, n: nat, st: Scan)
    requires n < |line| && ScanOk(line, delims, n, st) && !IsBracket(line[n]) && line[n] !in delims
    ensures ScanStep(line, delims, st, n) == Some(st) && OpenStack(line[..n + 1]).Some?
    ensures ScanOk(line, delims, n + 1, st)
  {
    PrefixSnoc(line, n);
    GeneralAfter(st.general, line, delims, n);
    OpenAfterOther(st.open, line, delims, n, OpenStack(line[..n]).value);
  }

  lemma StepInside(line: string, delims: set<char>, n: nat, st: Scan)
    requires n < |line| && ScanOk(line, delims, n, st) && !IsBracket(line[n]) && line[n] in delims && st.open != []
    ensures ScanStep(line, delims, st, n).Some? && OpenStack(line[..n + 1]).Some?
    ensures ScanOk(line, delims, n + 1, ScanStep(line, delims, st, n).value)
  {
    PrefixSnoc(line, n);
    GeneralAfter(st.general, line, delims, n);
    OpenAfterDelim(st.open, line, delims, n, OpenStack(line[..n]).value);
  }

  lemma StepOutside(line: string, delims: set<char>, n: nat, st: Scan)
    requires n < |line| && ScanOk(line, delims, n, st) && !IsBracket(line[n]) && line[n] in delims && st.open == []
    ensures ScanStep(line, delims, st, n).Some? && OpenStack(line[..n + 1]).Some?
    ensures ScanOk(line, delims, n + 1, ScanStep(line, delims, st, n).value)
  {
    PrefixSnoc(line, n);
    GeneralAfter(st.general, line, delims, n);
  }

  /** The scanner gets through exactly the prefixes the stack machine gets through, and then every
      field of every block means what it should. */
  lemma {:induction false} ScanToOk(line: string, delims: set<char>, n: nat)
    requires n <= |line|
    ensures ScanTo(line, delims, n).Some? <==> OpenStack(line[..n]).Some?
    ensures ScanTo(line, delims, n).Some? ==> ScanOk(line, delims, n, ScanTo(line, delims, n).value)
  {
    if n == 0 {
      var st := StartScan(line);
      FreshTallies(line, delims, 0);
      assert st.general == NewBlock(Empty, 0, -1, Some(|line|)).(text := Some(line));
    } else {
      ScanToOk(line, delims, n - 1);
      assert line[..n][..n - 1] == line[..n - 1];
      match ScanTo(line, delims, n - 1)
      case None =>
      case Some(st) =>
        if IsClose(line[n - 1]) {
          StepClose(line, delims, n - 1, st);
        } else if IsOpen(line[n - 1]) {
          StepOpen(line, delims, n - 1, st);
        } else if line[n - 1] !in delims {
          StepPlain(line, delims, n - 1, st);
        } else if st.open != [] {
          StepInside(line, delims, n - 1, st);
        } else {
          StepOutside(line, delims, n - 1, st);
        }
    }
  }

  // ---------- the tree ----------

  /** The block list _symbols_tree returns for an already stripped line, general block last. */
  function Tree(line: string, delims: set<char>): Option<seq<BlockView>> {
    match ScanTo(line, delims, |line|)
    case None => None
    case Some(st) => if st.open != [] then None else Some(st.closed + [st.general])
  }

  /** Acceptance: exactly the balanced words. Every block found is what it claims to be. */
  lemma TreeAccepts(line: string, delims: set<char>)
    ensures Tree(line, delims).Some? <==> Balanced(line)
    ensures Tree(line, delims).Some? ==>
              var bs := Tree(line, delims).value;
              && |bs| > 0 && GeneralBlock(bs[|bs| - 1], line, delims, |line|)
              && forall k :: 0 <= k < |bs| - 1 ==> ClosedBlock(bs[k], line, delims)
  {
    ScanToOk(line, delims, |line|);
    assert line[..|line|] == line;
    ClosedIffBalanced(line);
  }
}
