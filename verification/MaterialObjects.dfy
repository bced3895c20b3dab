/** The mutable objects of processors/materials/parser.py: delimiter lists, blocks and levels. */
module MaterialObjects {
  import opened Text
  import opened BracketWords
  import opened MaterialBlocks
  import opened MaterialCut

  class DelimetersList {
    ghost const owner: object  // the block and the delimiter the list was made for
    ghost const key: char
    var count: nat
    var index: seq<int>

    ghost predicate Valid() reads this { count == |index| }

    constructor (ghost owner: object, ghost key: char)
      ensures Valid() && index == [] && this.owner == owner && this.key == key
    {
      this.owner, this.key := owner, key;
      count, index := 0, [];
    }

    method Add(i: int)
      requires Valid()
      modifies this
      ensures Valid() && index == old(index) + [i]
    {
      count := count + 1;
      index := index + [i];
    }
  }

  class Block {
    const btype: BracketType
    const level: nat
    const start: int
    var end: Option<int>
    var text: Option<string>
    var delims: map<char, DelimetersList>
    var maxDelimiter: Option<char>
    var maxCount: nat

    ghost function Lists(): set<object> reads this`delims { delims.Values }

    ghost predicate Valid()
      reads this`delims, Lists()
    {
      forall d :: d in delims ==> delims[d].Valid() && delims[d].owner == this && delims[d].key == d
    }

    ghost function Recorded(): map<char, seq<int>>
      reads this`delims, Lists()
    {
      map d | d in delims :: delims[d].index
    }

    ghost function View(): BlockView
      reads this, Lists()
    {
      BlockView(btype, level, start, end, text, Recorded(), maxDelimiter, maxCount)
    }

    constructor (btype: BracketType, level: nat, start: int, end: Option<int>)
      ensures Valid() && View() == NewBlock(btype, level, start, end) && Lists() == {}
    {
      this.btype, this.level, this.start, this.end := btype, level, start, end;
      text, delims, maxDelimiter, maxCount := None, map[], None, 0;
    }

    method SetEnd(i: int)
      requires Valid()
      modifies this
      ensures Valid() && View() == old(View()).(end := Some(i)) && Lists() == old(Lists())
    {
      end := Some(i);
    }

    method SetText(s: string)
      requires Valid()
      modifies this
      ensures Valid() && View() == old(View()).(text := Some(s)) && Lists() == old(Lists())
    {
      text := Some(s);
    }

    method Close(i: int, s: string)
      requires Valid()
      modifies this
      ensures Valid() && View() == old(View()).(end := Some(i), text := Some(s)) && Lists() == old(Lists())
    {
      SetEnd(i);
      SetText(s);
    }

    method ListFor(d: char) returns (list: DelimetersList)
      requires Valid()
      modifies this`delims
      ensures Valid() && fresh(Lists() - old(Lists()))
      ensures d in delims && delims[d] == list
      ensures Recorded() == if d in old(delims) then old(Recorded()) else old(Recorded())[d := []]
    {
      if d !in delims {
        list := new DelimetersList(this, d);
        delims := delims[d := list];
        assert Recorded() == old(Recorded())[d := []];
      } else {
        list := delims[d];
      }
    }

    method Note(d: char, i: int) returns (n: nat)
      requires Valid() && d in delims
      modifies delims[d]
      ensures Valid() && Recorded() == old(Recorded())[d := old(Recorded())[d] + [i]] && n == |Recorded()[d]|
    {
      var list := delims[d];
      list.Add(i);
      n := list.count;
      assert forall e :: e in delims && e != d ==> delims[e] != list;
      assert Recorded() == old(Recorded())[d := list.index];
    }

    method AddDelim(d: char, i: int)
      requires Valid()
      modifies this, Lists()
      ensures Valid() && fresh(Lists() - old(Lists()))
      ensures View() == MaterialBlocks.AddDelim(old(View()), d, i)
    {
      var _ := ListFor(d);
      var n := Note(d, i);
      assert Recorded() == MaterialBlocks.AddDelim(old(View()), d, i).delims;
      NoteMax(d, n);
    }

    /** The test for a new most frequent delimiter. */
    method NoteMax(d: char, n: nat)
      requires Valid()
      modifies this`maxCount, this`maxDelimiter
      ensures Valid() && Recorded() == old(Recorded())
      ensures maxCount == (if n > old(maxCount) then n else old(maxCount))
      ensures maxDelimiter == (if n > old(maxCount) then Some(d) else old(maxDelimiter))
    {
      if n > maxCount {
        maxCount := n;
        maxDelimiter := Some(d);
      }
    }

    /** None stands for the ValueError on a delimiter the block does not have. */
    method SplitByDelim(d: char) returns (parts: Option<seq<string>>)
      requires Valid() && text.Some?
      requires d in delims ==> Positions(Shift(View().delims[d], -(start + 1)), |text.value|)
      ensures parts.None? <==> d !in delims
      ensures parts.Some? ==> parts.value == Cut(text.value, Shift(View().delims[d], -(start + 1)))
    {
      if d !in delims {
        return None;
      }
      var s := text.value;
      var index := delims[d].index;
      ghost var idx := Shift(View().delims[d], -(start + 1));
      var result: seq<string> := [];
      var last := -1;
      for k := 0 to |index|
        invariant last + 1 == From(idx, k)
        invariant result == Cut(s, idx)[..k]
      {
        var i := index[k] - (start + 1);
        CutInRange(idx, |s|, k);
        result := result + [s[last + 1..i]];
        last := i;
      }
      CutInRange(idx, |s|, |index|);
      result := result + [s[last + 1..]];
      assert s[last + 1..] == s[last + 1..|s|];
      assert result == Cut(s, idx)[..|idx| + 1] == Cut(s, idx);
      return Some(result);
    }
  }

  /** The blocks of one level, in the order they were added. */
  function OfLevel(blocks: seq<Block>, level: nat): seq<Block> {
    if blocks == [] then []
    else
      var before := OfLevel(blocks[..|blocks| - 1], level);
      if blocks[|blocks| - 1].level == level then before + [blocks[|blocks| - 1]] else before
  }

  lemma LevelSnoc(blocks: seq<Block>, b: Block)
    ensures forall level: nat ::
              OfLevel(blocks + [b], level)
              == if b.level == level then OfLevel(blocks, level) + [b] else OfLevel(blocks, level)
  {
    assert (blocks + [b])[..|blocks|] == blocks;
  }

  ghost predicate Deepest(blocks: seq<Block>, depth: nat) {
    && (forall b :: b in blocks ==> b.level <= depth)
    && (depth > 0 ==> exists b :: b in blocks && b.level == depth)
  }

  lemma DeepestSnoc(blocks: seq<Block>, b: Block, depth: nat)
    requires Deepest(blocks, depth)
    ensures Deepest(blocks + [b], if b.level > depth then b.level else depth)
  {
    assert b in blocks + [b];
    if 0 < depth && b.level <= depth {
      var c :| c in blocks && c.level == depth;
      assert c in blocks + [b];
    }
  }

  class BlockLevels {
    var levels: map<nat, seq<Block>>
    var depth: nat
    ghost var blocks: seq<Block>  // everything added, oldest first

    ghost predicate Valid() reads this {
      && (forall k: nat :: k in levels <==> OfLevel(blocks, k) != [])
      && (forall k :: k in levels ==> levels[k] == OfLevel(blocks, k))
      && Deepest(blocks, depth)
    }

    constructor ()
      ensures Valid() && blocks == []
    {
      levels, depth, blocks := map[], 0, [];
    }

    method AddBlock(b: Block)
      requires Valid()
      modifies this
      ensures Valid() && blocks == old(blocks) + [b]
    {
      LevelSnoc(blocks, b);
      DeepestSnoc(blocks, b, depth);
      var level := b.level;
      if level !in levels {
        levels := levels[level := []];
      }
      levels := levels[level := levels[level] + [b]];
      if level > depth {
        depth := level;
      }
      blocks := blocks + [b];
    }

    function GetLevel(level: nat): (r: Option<seq<Block>>)
      reads this
      ensures Valid() ==> r == if OfLevel(blocks, level) == [] then None else Some(OfLevel(blocks, level))
    {
      if level in levels then Some(levels[level]) else None
    }
  }
}
