/** _symbols_tree of processors/materials/parser.py: one pass over the line with a stack of blocks. */
module MaterialScanner {
  import opened Text
  import opened BracketWords
  import opened MaterialBlocks
  import opened MaterialObjects

  /** repr owns the blocks and their delimiter lists. */
  ghost predicate Separate(made: set<Block>, repr: set<object>)
    reads made, repr
  {
    forall b :: b in made ==> b in repr && b.Lists() <= repr && b.Valid()
  }

  /** The objects of a scan: the stack, the block of the whole line and the levels are all different. */
  ghost predicate Holds(made: set<Block>, stack: seq<Block>, general: Block, closed: seq<Block>) {
    && general in made && general !in stack && general !in closed
    && (forall k :: 0 <= k < |stack| ==> stack[k] in made && stack[k] !in closed)
    && (forall j, k :: 0 <= j < k < |stack| ==> stack[j] != stack[k])
    && (forall k :: 0 <= k < |closed| ==> closed[k] in made)
  }

  ghost predicate Shows(blocks: seq<Block>, views: seq<BlockView>)
    reads blocks, set b, l | b in blocks && l in b.Lists() :: l
  {
    |blocks| == |views| && forall k :: 0 <= k < |blocks| ==> blocks[k].View() == views[k]
  }

  /** The objects show the state st of the scan. */
  ghost predicate Scanning(st: Scan, made: set<Block>, repr: set<object>,
                           stack: seq<Block>, general: Block, levels: BlockLevels)
    reads levels, made, repr
  {
    && levels !in repr && levels.Valid() && Separate(made, repr) && Holds(made, stack, general, levels.blocks)
    && |stack| == |st.open| && (forall k :: 0 <= k < |stack| ==> stack[k].View() == st.open[k])
    && general.View() == st.general
    && |levels.blocks| == |st.closed| && (forall k :: 0 <= k < |st.closed| ==> levels.blocks[k].View() == st.closed[k])
  }

  method Push(symbol: char, i: nat, ghost st: Scan, ghost made: set<Block>, ghost repr: set<object>, stack: seq<Block>,
              ghost general: Block, ghost levels: BlockLevels)
    returns (stack': seq<Block>, ghost made': set<Block>, ghost repr': set<object>)
    requires Scanning(st, made, repr, stack, general, levels) && IsOpen(symbol)
    ensures Scanning(st.(open := st.open + [NewBlock(CheckBracket(symbol).value, |stack| + 1, i, None)]),
                     made', repr', stack', general, levels)
    ensures fresh(repr' - repr)
  {
    var block := new Block(CheckBracket(symbol).value, |stack| + 1, i, None);
    made', repr' := made + {block}, repr + {block};
    stack' := stack + [block];
  }

  method Pop(text: string, i: nat, ghost st: Scan, ghost made: set<Block>, ghost repr: set<object>, stack: seq<Block>,
             ghost general: Block, levels: BlockLevels) returns (stack': seq<Block>)
    requires Scanning(st, made, repr, stack, general, levels)
    requires stack != [] && 0 <= stack[|stack| - 1].start < i <= |text|
    modifies stack[|stack| - 1], levels
    ensures var b := st.open[|st.open| - 1];
            Scanning(st.(open := st.open[..|st.open| - 1],
                         closed := st.closed + [b.(end := Some(i), text := Some(text[b.start + 1..i]))]),
                     made, repr, stack', general, levels)
  {
    var block := stack[|stack| - 1];
    stack' := stack[..|stack| - 1];
    block.Close(i, text[block.start + 1..i]);
    assert forall b :: b in made && b != block ==>
             b.View() == old(b.View()) && b.Valid() && b.Lists() == old(b.Lists());
    levels.AddBlock(block);
    assert forall k :: 0 <= k < |st.closed| ==> levels.blocks[k] == old(levels.blocks)[k];
  }

  method Count(symbol: char, i: nat, ghost st: Scan, ghost made: set<Block>, ghost repr: set<object>, stack: seq<Block>,
               general: Block, ghost levels: BlockLevels) returns (ghost repr': set<object>)
    requires Scanning(st, made, repr, stack, general, levels)
    modifies repr
    ensures Scanning(if st.open != [] then
                       st.(open := st.open[..|st.open| - 1] + [AddDelim(st.open[|st.open| - 1], symbol, i)])
                     else st.(general := AddDelim(st.general, symbol, i)),
                     made, repr', stack, general, levels)
    ensures fresh(repr' - repr)
  {
    var block := if stack != [] then stack[|stack| - 1] else general;
    block.AddDelim(symbol, i);
    repr' := repr + block.Lists();
    assert forall b :: b in made && b != block ==>
             b.View() == old(b.View()) && b.Valid() && b.Lists() == old(b.Lists());
  }

  lemma TopStartsBefore(text: string, delims: set<char>, i: nat)
    requires i <= |text| && ScanTo(text, delims, i).Some?
    ensures var open := ScanTo(text, delims, i).value.open;
            open != [] ==> 0 <= open[|open| - 1].start < i
  {
    ScanToOk(text, delims, i);
    var open := ScanTo(text, delims, i).value.open;
    if open != [] {
      assert OpenBlock(open[|open| - 1], text, delims, i, OpenStack(text[..i]).value, |open| - 1);
    }
  }

  /** One turn of the loop; ok is false where the source raises. */
  method Turn(text: string, delims: set<char>, i: nat, ghost st: Scan, ghost made: set<Block>, ghost repr: set<object>,
              stack: seq<Block>, general: Block, levels: BlockLevels)
    returns (ok: bool, stack': seq<Block>, ghost made': set<Block>, ghost repr': set<object>)
    requires i < |text| && Scanning(st, made, repr, stack, general, levels)
    requires st.open != [] ==> 0 <= st.open[|st.open| - 1].start < i
    modifies levels, repr
    ensures ok <==> ScanStep(text, delims, st, i).Some?
    ensures ok ==> Scanning(ScanStep(text, delims, st, i).value, made', repr', stack', general, levels)
    ensures fresh(repr' - repr)
  {
    ok, stack', made', repr' := true, stack, made, repr;
    var symbol := text[i];
    if IsOpen(symbol) {
      stack', made', repr' := Push(symbol, i, st, made, repr, stack, general, levels);
    } else if IsClose(symbol) {
      if stack == [] || CheckBracket(symbol).value != stack[|stack| - 1].btype {
        ok := false;
      } else {
        stack' := Pop(text, i, st, made, repr, stack, general, levels);
      }
    } else if symbol in delims {
      repr' := Count(symbol, i, st, made, repr, stack, general, levels);
    }
  }

  method Finish(ghost st: Scan, ghost made: set<Block>, ghost repr: set<object>, general: Block, levels: BlockLevels)
    requires Scanning(st, made, repr, [], general, levels)
    modifies levels
    ensures levels.Valid() && Shows(levels.blocks, st.closed + [st.general])
    ensures forall b :: b in levels.blocks ==> b in repr && b.Lists() <= repr && b.Valid()
  {
    levels.AddBlock(general);
    assert general.View() == st.general && Separate(made, repr);
  }

  method ScanLine(text: string, delims: set<char>, general: Block, levels: BlockLevels)
    returns (ok: bool, stack: seq<Block>, ghost st: Scan, ghost made: set<Block>, ghost repr: set<object>)
    requires Scanning(StartScan(text), {general}, {general}, [], general, levels)
    modifies general, levels
    ensures ScanTo(text, delims, |text|) == if ok then Some(st) else None
    ensures ok ==> Scanning(st, made, repr, stack, general, levels)
    ensures ok ==> forall o :: o in repr && o != general ==> fresh(o)
  {
    ok, stack, st, made, repr := true, [], StartScan(text), {general}, {general};
    for i := 0 to |text|
      invariant ok && ScanTo(text, delims, i) == Some(st)
      invariant forall o :: o in repr && o != general ==> fresh(o)
      invariant Scanning(st, made, repr, stack, general, levels)
    {
      TopStartsBefore(text, delims, i);
      ok, stack, made, repr := Turn(text, delims, i, st, made, repr, stack, general, levels);
      if !ok {
        NoWayBack(text, delims, i + 1, |text|);
        return;
      }
      st := ScanStep(text, delims, st, i).value;
    }
  }

  /** None stands for the exceptions: a wrong closing bracket, one with nothing open, a bracket left open. */
  method SymbolsTree(line: string, delims: set<char>) returns (r: Option<BlockLevels>)
    ensures r.None? <==> Tree(Strip(line), delims).None?
    ensures r.Some? ==>
              && fresh(r.value) && r.value.Valid()
              && (forall b :: b in r.value.blocks ==> fresh(b) && fresh(b.Lists()) && b.Valid())
              && Shows(r.value.blocks, Tree(Strip(line), delims).value)
  {
    var text := Strip(line);
    var levels := new BlockLevels();
    var general := new Block(Empty, 0, -1, Some(|text|));
    general.SetText(text);
    var ok, stack, st, made, repr := ScanLine(text, delims, general, levels);
    if !ok || stack != [] {
      return None;
    }
    Finish(st, made, repr, general, levels);
    return Some(levels);
  }

  lemma {:induction false} NoWayBack(text: string, delims: set<char>, i: nat, n: nat)
    requires i <= n <= |text| && ScanTo(text, delims, i).None?
    ensures ScanTo(text, delims, n).None?
    decreases n
  {
    if i < n {
      NoWayBack(text, delims, i, n - 1);
    }
  }
}
