/** ParserV2 of processors/materials/parser.py. */
module MaterialParser {
  import opened Text
  import opened BracketWords
  import opened MaterialBlocks
  import opened MaterialCut
  import opened MaterialObjects
  import opened MaterialRules
  import opened Mappings
  import MaterialScanner

  const DELIMITERS: set<char> := {'-', '–', '—', '+', 'x', 'х', '*'}

  /** A complete block whose positions are those of its favourite delimiter in its own text. */
  ghost predicate Ready(b: Block)
    reads b, b.Lists()
  {
    && b.Valid() && Complete(b.View())
    && (b.maxDelimiter.Some? ==>
          && b.maxDelimiter.value in b.delims
          && b.Recorded()[b.maxDelimiter.value] == Shift(TopsOf(b.text.value, b.maxDelimiter.value), b.start + 1))
  }

  class ParseResults {
    var material: Option<string>
    var prefix: Option<string>
    var postfix: Option<string>
    var parts: seq<string>
    var matches: seq<Match>
    var partsCount: nat

    ghost function View(): Parsed
      reads this`material, this`prefix, this`postfix, this`parts, this`partsCount
    {
      Parsed(material, prefix, postfix, parts, partsCount)
    }

    constructor (r: Parsed)
      ensures View() == r && matches == []
    {
      material, prefix, postfix, parts, partsCount := r.material, r.prefix, r.postfix, r.parts, r.partsCount;
      matches := [];
    }
  }

  class ParserV2 {
    const delims: set<char>

    constructor (delims: set<char>)
      ensures this.delims == delims
    {
      this.delims := delims;
    }

    method NoBracketsRule(general: Block) returns (r: ParseResults)
      requires Ready(general)
      ensures fresh(r) && r.matches == [] && r.View() == NoBrackets(general.View())
    {
      var count := general.maxCount;
      if general.maxDelimiter.None? || count < 1 {
        r := new ParseResults(Parsed(general.text, None, None, [general.text.value], 1));
        return;
      }
      var parts := Split(general);
      if count == 1 {
        r := new ParseResults(Parsed(general.text, None, Some(parts[1]), [parts[0]], 1));
      } else {
        r := new ParseResults(Parsed(general.text, None, None, parts, |parts|));
      }
    }

    method Split(b: Block) returns (parts: seq<string>)
      requires Ready(b) && b.maxCount > 0
      ensures parts == OwnPieces(b.View())
    {
      var d := b.maxDelimiter.value;
      ghost var idx := TopsOf(b.text.value, d);
      TopsOfMeaning(b.text.value, d);
      assert Shift(Shift(idx, b.start + 1), -(b.start + 1)) == idx;
      var result := b.SplitByDelim(d);
      parts := result.value;
    }

    method FindCandidates(blocks: seq<Block>, general: Block, ghost views: seq<BlockView>) returns (found: seq<Block>)
      requires MaterialScanner.Shows(blocks, views) && Ready(general) && forall b :: b in blocks ==> Ready(b)
      ensures MaterialScanner.Shows(found, Candidates(views, general.maxCount))
      ensures Ready(general) && forall b :: b in found ==> b in blocks && Ready(b)
    {
      found := [];
      var count := general.maxCount;
      for k := 0 to |blocks|
        invariant MaterialScanner.Shows(found, Candidates(views[..k], count))
        invariant forall b :: b in found ==> b in blocks
      {
        assert views[..k + 1][..k] == views[..k];
        assert blocks[k].View() == views[k];
        var n := blocks[k].maxCount;
        if n > count && n > 1 {
          found := found + [blocks[k]];
        }
      }
      assert views[..|blocks|] == views;
    }

    lemma {:induction false} LevelShows(blocks: seq<Block>, views: seq<BlockView>, level: nat)
      requires |blocks| == |views| && forall k :: 0 <= k < |blocks| ==> blocks[k].View() == views[k]
      ensures |OfLevel(blocks, level)| == |AtLevel(views, level)|
      ensures forall k :: 0 <= k < |OfLevel(blocks, level)| ==>
                OfLevel(blocks, level)[k].View() == AtLevel(views, level)[k]
      ensures forall b :: b in OfLevel(blocks, level) ==> b in blocks && b.level == level
    {
      if blocks != [] {
        var n := |blocks| - 1;
        assert blocks[n].View() == views[n];
        LevelShows(blocks[..n], views[..n], level);
      }
    }

    /** The blocks the scanner returned are ready to be split. */
    lemma BlockReady(text: string, b: Block, bs: seq<BlockView>, k: nat)
      requires CompleteTree(text, delims, bs) && k < |bs| && b.View() == bs[k] && b.Valid()
      ensures Ready(b)
    {
      assert bs[k] in bs;
      if b.maxDelimiter.Some? {
        if k == |bs| - 1 {
          assert text[0..|text|] == text;
          RecordComplete(bs[k], text, delims, 0, |text|);
        } else {
          assert ClosedBlock(bs[k], text, delims);
          RecordComplete(bs[k], text, delims, b.start + 1, b.end.value);
        }
      }
    }

    method ChooseParts(line: string, general: Block, first: seq<Block>, ghost views: seq<BlockView>)
      returns (r: ParseResults)
      requires Ready(general) && MaterialScanner.Shows(first, views)
      requires forall b :: b in first ==> Ready(b)
      requires forall b :: b in views ==> Inner(b, general.text.value)
      ensures fresh(r) && r.matches == [] && r.View() == Choose(line, general.View(), views)
    {
      if first == [] {
        r := NoBracketsRule(general);
        return;
      }
      var count := general.maxCount;
      var candidates := FindCandidates(first, general, views);
      if count > 1 {
        var parts := Split(general);
        r := new ParseResults(Parsed(general.text, None, None, parts, |parts|));
        return;
      }
      if |candidates| == 1 {
        var c := candidates[0];
        assert c.View() == Candidates(views, count)[0];
        assert Candidates(views, count)[0] in Candidates(views, count) && c.View() in views;
        assert Ready(c);
        var parts := Split(c);
        var prefix := general.text.value[..c.start];
        var postfix := general.text.value[c.end.value + 1..];
        r := new ParseResults(Parsed(general.text, Some(prefix), Some(postfix), parts, |parts|));
        return;
      }
      r := new ParseResults(Parsed(Some(line), None, None, [line], 1));
    }

    lemma LevelsReady(levels: BlockLevels, text: string, bs: seq<BlockView>)
      requires forall b :: b in levels.blocks ==> b.Valid()
      requires MaterialScanner.Shows(levels.blocks, bs) && CompleteTree(text, delims, bs)
      ensures forall k :: 0 <= k < |bs| ==> Ready(levels.blocks[k])
      ensures levels.blocks[|bs| - 1].View() == bs[|bs| - 1] && levels.blocks[|bs| - 1].text == Some(text)
    {
      forall k | 0 <= k < |bs|
        ensures Ready(levels.blocks[k])
      {
        BlockReady(text, levels.blocks[k], bs, k);
      }
    }

    /** What ChooseParts needs, for the levels the scanner returns. */
    ghost predicate Prepared(levels: BlockLevels, general: Block, views: seq<BlockView>)
      reads levels, levels.blocks, set b, l | b in levels.blocks && l in b.Lists() :: l
      reads OfLevel(levels.blocks, 1), set b, l | b in OfLevel(levels.blocks, 1) && l in b.Lists() :: l
      reads general, general.Lists()
    {
      && OfLevel(levels.blocks, 0) == [general] && Ready(general)
      && (forall b :: b in OfLevel(levels.blocks, 1) ==> b in levels.blocks && Ready(b))
      && MaterialScanner.Shows(OfLevel(levels.blocks, 1), views)
      && (forall v :: v in views ==> Inner(v, general.text.value))
    }

    lemma PrepareGeneral(levels: BlockLevels, text: string, bs: seq<BlockView>)
      requires forall b :: b in levels.blocks ==> b.Valid()
      requires MaterialScanner.Shows(levels.blocks, bs) && CompleteTree(text, delims, bs)
      ensures var general := levels.blocks[|bs| - 1];
              OfLevel(levels.blocks, 0) == [general] && Ready(general) && general.View() == bs[|bs| - 1]
      ensures levels.blocks[|bs| - 1].text == Some(text)
    {
      GeneralIsBottom(levels, text, bs);
      LevelsReady(levels, text, bs);
    }

    lemma PrepareFirst(levels: BlockLevels, text: string, bs: seq<BlockView>)
      requires forall b :: b in levels.blocks ==> b.Valid()
      requires MaterialScanner.Shows(levels.blocks, bs) && CompleteTree(text, delims, bs)
      ensures forall b :: b in OfLevel(levels.blocks, 1) ==> b in levels.blocks && Ready(b)
      ensures MaterialScanner.Shows(OfLevel(levels.blocks, 1), AtLevel(bs, 1))
      ensures forall v :: v in AtLevel(bs, 1) ==> Inner(v, text)
    {
      LevelShows(levels.blocks, bs, 1);
      LevelOneInner(text, delims, bs);
      LevelsReady(levels, text, bs);
    }

    lemma Prepare(levels: BlockLevels, text: string, bs: seq<BlockView>)
      requires forall b :: b in levels.blocks ==> b.Valid()
      requires MaterialScanner.Shows(levels.blocks, bs) && CompleteTree(text, delims, bs)
      ensures Prepared(levels, levels.blocks[|bs| - 1], AtLevel(bs, 1))
      ensures levels.blocks[|bs| - 1].View() == bs[|bs| - 1]
    {
      PrepareGeneral(levels, text, bs);
      PrepareFirst(levels, text, bs);
    }

    method FromLevels(line: string, levels: BlockLevels, ghost general: Block, ghost views: seq<BlockView>)
      returns (r: ParseResults)
      requires levels.Valid() && Prepared(levels, general, views)
      ensures fresh(r) && r.matches == [] && r.View() == Choose(line, general.View(), views)
    {
      var first := levels.GetLevel(1);
      var bottom := levels.GetLevel(0);
      r := ChooseParts(line, bottom.value[0], if first.Some? then first.value else [], views);
    }

    method ReadTree(line: string, levels: BlockLevels, ghost text: string, ghost bs: seq<BlockView>)
      returns (r: ParseResults)
      requires levels.Valid() && (forall b :: b in levels.blocks ==> b.Valid())
      requires MaterialScanner.Shows(levels.blocks, bs) && CompleteTree(text, delims, bs)
      ensures fresh(r) && r.matches == [] && r.View() == FromTree(line, text, delims, bs)
    {
      Prepare(levels, text, bs);
      r := FromLevels(line, levels, levels.blocks[|bs| - 1], AtLevel(bs, 1));
    }

    /** _parse: None stands for the ValueError or IndexError of an unbalanced line. */
    method ParseLine(line: string) returns (r: Option<ParseResults>)
      ensures r.None? <==> RawParse(line, delims).None?
      ensures r.Some? ==> fresh(r.value) && r.value.matches == [] && r.value.View() == RawParse(line, delims).value
    {
      var tree := MaterialScanner.SymbolsTree(line, delims);
      if tree.None? {
        return None;
      }
      ghost var text := Strip(line);
      TreeComplete(text, delims);
      var result := ReadTree(line, tree.value, text, Tree(text, delims).value);
      return Some(result);
    }

    lemma GeneralIsBottom(levels: BlockLevels, text: string, bs: seq<BlockView>)
      requires MaterialScanner.Shows(levels.blocks, bs) && CompleteTree(text, delims, bs)
      ensures OfLevel(levels.blocks, 0) == [levels.blocks[|bs| - 1]]
    {
      var n := |bs| - 1;
      assert levels.blocks[n].View() == bs[n];
      NoneAtBottom(levels.blocks[..n], bs[..n], text);
    }

    lemma {:induction false} NoneAtBottom(blocks: seq<Block>, views: seq<BlockView>, text: string)
      requires MaterialScanner.Shows(blocks, views)
      requires forall k :: 0 <= k < |views| ==> ClosedBlock(views[k], text, delims)
      ensures OfLevel(blocks, 0) == []
    {
      if blocks != [] {
        var n := |blocks| - 1;
        assert blocks[n].View() == views[n];
        NoneAtBottom(blocks[..n], views[..n], text);
      }
    }

    method CleanLastPart(s: string) returns (postfix: string, part: string)
      ensures (forall i :: !StrayRound(s, i)) ==> postfix == [] && part == s
      ensures forall i :: StrayRound(s, i) ==> postfix == Strip(s[i + 1..]) && part == Strip(s[..i])
    {
      postfix, part := [], s;
      var idx := -1;
      for i := 0 to |s|
        invariant idx == -1
        invariant forall k :: 0 <= k < i ==> s[k] != '(' && s[k] != '[' && s[k] != ')'
      {
        var symbol := s[i];
        if symbol == '(' || symbol == '[' {
          return;
        }
        if symbol == ')' {
          idx := i;
          break;
        }
      }
      if idx < 0 {
        return;
      }
      assert StrayRound(s, idx);
      postfix := Strip(s[idx + 1..]);
      part := Strip(s[..idx]);
    }

    method StripFields(r: ParseResults)
      modifies r
      ensures r.View() == old(r.View()).(parts := StripAll(old(r.parts)),
                                         prefix := StripOption(old(r.prefix)), postfix := StripOption(old(r.postfix)))
      ensures r.matches == old(r.matches)
    {
      if r.prefix.Some? && r.prefix.value != [] {
        r.prefix := Some(Strip(r.prefix.value));
      }
      if r.postfix.Some? && r.postfix.value != [] {
        r.postfix := Some(Strip(r.postfix.value));
      }
      var parts: seq<string> := [];
      for k := 0 to |r.parts|
        invariant parts == StripAll(r.parts)[..k]
      {
        parts := parts + [Strip(r.parts[k])];
      }
      r.parts := parts;
    }

    method TakeCleaned(result: ParseResults, postfix: string, p: string)
      requires result.parts != []
      modifies result`postfix, result`parts
      ensures result.postfix == if postfix != [] then Some(postfix) else old(result.postfix)
      ensures var last := |old(result.parts)| - 1;
              result.parts == if p != [] then old(result.parts)[last := p] else old(result.parts)[..last]
    {
      if postfix != [] {
        result.postfix := Some(postfix);
      }
      if p != [] {
        result.parts := result.parts[|result.parts| - 1 := p];
      } else {
        result.parts := result.parts[..|result.parts| - 1];
      }
    }

    /** The steps parse adds, on a result whose parts are balanced. */
    method CleanUp(result: ParseResults)
      requires AllClosed(result.parts) && result.partsCount > 0
      modifies result
      ensures result.matches == old(result.matches)
      ensures result.View() == old(result.View()).(parts := DropBlankLast(StripAll(old(result.parts))),
                                                   prefix := StripOption(old(result.prefix)),
                                                   postfix := StripOption(old(result.postfix)))
    {
      LastStripped(result.parts);
      if result.partsCount > 0 {
        var last := |result.parts| - 1;
        forall i ensures !StrayRound(result.parts[last], i) {
          NothingToClean(result.parts[last], i);
        }
        var postfix, p := CleanLastPart(result.parts[last]);
        postfix := Strip(postfix);
        p := Strip(p);
        TakeCleaned(result, postfix, p);
      }
      StripFields(result);
    }

    /** parse, with the clean-up of the last part as the source has it; the clean-up never shows. */
    method Parse(line: string) returns (r: Option<ParseResults>)
      ensures r.None? <==> !Balanced(Strip(line))
      ensures r.None? <==> FinalParse(line, delims).None?
      ensures r.Some? ==> fresh(r.value) && r.value.matches == [] && r.value.View() == FinalParse(line, delims).value
    {
      TreeAccepts(Strip(line), delims);
      r := ParseLine(line);
      if r.None? {
        return;
      }
      PartsBalanced(line, delims);
      ghost var how := ParseLosesNothing(line, delims);
      CleanUp(r.value);
    }

    /** Stripping the last part early, and dropping it when blank, is what stripping all of them does. */
    lemma LastStripped(parts: seq<string>)
      requires parts != []
      ensures var last := |parts| - 1;
              var p := Strip(parts[last]);
              StripAll(if p != [] then parts[last := p] else parts[..last]) == DropBlankLast(StripAll(parts))
    {
      StripIdempotent(parts[|parts| - 1]);
    }
  }
}
