/** Which of its four results _parse (processors/materials/parser.py) gives a line, stated on the text alone:
    its outermost bracket pairs and the winning delimiters outside and inside them. */
module MaterialShapes {
  import opened Text
  import opened BracketWords
  import opened MaterialBlocks
  import opened MaterialTree
  import opened MaterialCut
  import opened MaterialRules

  /** A matching bracket pair that no other pair of the text encloses. */
  ghost predicate Outermost(text: string, p: int, q: int) {
    && 0 <= p < q < |text| && IsOpen(text[p]) && IsClose(text[q]) && CheckBracket(text[p]) == CheckBracket(text[q])
    && Closed(text[..p]) && Closed(text[p + 1..q])
  }

  ghost predicate HasBrackets(text: string) { exists p :: 0 <= p < |text| && IsOpen(text[p]) }

  /** No delimiter occurs more than k times outside the brackets of the text. */
  ghost predicate AtMost(text: string, delims: set<char>, k: nat) {
    forall d :: d in delims && !IsBracket(d) ==> |TopsOf(text, d)| <= k
  }

  /** The text between p and q has a winning delimiter that occurs more than k times there, and at least twice. */
  ghost predicate Rich(text: string, delims: set<char>, k: nat, p: int, q: int, d: char) {
    && Outermost(text, p, q)
    && Wins(text[p + 1..q], delims, d) && |TopsOf(text[p + 1..q], d)| > k && |TopsOf(text[p + 1..q], d)| > 1
  }

  /** The one outermost pair with such a text. */
  ghost predicate OnlyRich(text: string, delims: set<char>, k: nat, p: int, q: int, d: char) {
    && Rich(text, delims, k, p, q, d)
    && forall p', q', d' :: Rich(text, delims, k, p', q', d') ==> p' == p && q' == q
  }

  /** How often the favourite occurs outside the brackets. */
  ghost predicate Favourite(text: string, delims: set<char>, k: nat) {
    if k == 0 then AtMost(text, delims, 0)
    else exists d :: Wins(text, delims, d) && |TopsOf(text, d)| == k
  }

  // ---------- outermost pairs and blocks of level 1 ----------

  /** The bracket that closes p is the first that could. */
  lemma CloserUnique(text: string, p: int, q: int, r: int)
    requires 0 <= p < q < r <= |text| && IsClose(text[q]) && Closed(text[p + 1..q])
    ensures OpenStack(text[p + 1..r]).None?
  {
    OpenStackSnoc(text[p + 1..q], text[q]);
    assert text[p + 1..q] + [text[q]] == text[p + 1..q + 1];
    assert text[p + 1..r][..q - p] == text[p + 1..q + 1];
    if OpenStack(text[p + 1..r]).Some? {
      OpenStackPrefix(text[p + 1..r], q - p);
    }
  }

  /** The block found for an outermost pair, and the pair of a block of level 1. */
  lemma BlockOfPair(text: string, delims: set<char>, b: BlockView)
    requires ClosedBlock(b, text, delims)
    ensures b.level == 1 <==> Closed(text[..b.start])
    ensures b.level == 1 ==> Outermost(text, b.start, b.end.value)
    ensures forall q :: Outermost(text, b.start, q) ==> q == b.end.value && b.level == 1
  {
    assert b.level == 1 <==> OpenStack(text[..b.start]).value == [];
    forall q | Outermost(text, b.start, q)
      ensures q == b.end.value
    {
      if q < b.end.value {
        CloserUnique(text, b.start, q, b.end.value);
      } else if b.end.value < q {
        CloserUnique(text, b.start, b.end.value, q);
      }
    }
  }

  /** A block's favourite is the winner of its text. */
  lemma RecordWins(b: BlockView, line: string, delims: set<char>, a: nat, e: nat)
    requires a <= e <= |line| && Tallies(b, line, delims, a, e) && Majority(b)
    ensures b.maxDelimiter.Some? ==>
              Wins(line[a..e], delims, b.maxDelimiter.value) && |TopsOf(line[a..e], b.maxDelimiter.value)| == b.maxCount
    ensures b.maxDelimiter.None? ==> b.maxCount == 0 && AtMost(line[a..e], delims, 0)
  {
    forall d
      ensures Tops(line, a, e, d) == Shift(TopsOf(line[a..e], d), a)
    {
      TopsOfSlice(line, a, e, d);
    }
    if b.maxDelimiter.Some? {
      var d := b.maxDelimiter.value;
      forall c | c in delims && !IsBracket(c) && c != d && TopsOf(line[a..e], c) != []
        ensures Loses(line[a..e], d, c)
      {
        assert Tops(line, a, e, c) == Shift(TopsOf(line[a..e], c), a);
        assert c in b.delims && Behind(b, c);
      }
    }
  }

  // ---------- the list of level 1 ----------

  /** In the order of their closing brackets, so each once. */
  ghost predicate Ordered(blocks: seq<BlockView>) {
    && (forall k :: 0 <= k < |blocks| ==> blocks[k].end.Some?)
    && (forall j, k :: 0 <= j < k < |blocks| ==> blocks[j].end.value < blocks[k].end.value)
  }

  lemma OrderedSnoc(blocks: seq<BlockView>, kept: seq<BlockView>, b: BlockView)
    requires Ordered(blocks + [b]) && Ordered(kept) && forall c :: c in kept ==> c in blocks
    ensures Ordered(kept + [b])
  {
    assert (blocks + [b])[|blocks|] == b;
    forall j | 0 <= j < |kept|
      ensures kept[j].end.value < b.end.value
    {
      assert kept[j] in blocks;
      var k :| 0 <= k < |blocks| && blocks[k] == kept[j];
      assert (blocks + [b])[k] == kept[j];
    }
  }

  lemma {:induction false} AtLevelMeaning(blocks: seq<BlockView>, level: nat)
    requires Ordered(blocks)
    ensures forall b :: b in AtLevel(blocks, level) <==> b in blocks && b.level == level
    ensures Ordered(AtLevel(blocks, level))
  {
    if blocks != [] {
      var n := |blocks| - 1;
      AtLevelMeaning(blocks[..n], level);
      assert blocks == blocks[..n] + [blocks[n]];
      OrderedSnoc(blocks[..n], AtLevel(blocks[..n], level), blocks[n]);
    }
  }

  lemma {:induction false} CandidatesMeaning(blocks: seq<BlockView>, count: nat)
    requires Ordered(blocks)
    ensures forall b :: b in Candidates(blocks, count) <==> b in blocks && b.maxCount > count && b.maxCount > 1
    ensures Ordered(Candidates(blocks, count))
  {
    if blocks != [] {
      var n := |blocks| - 1;
      CandidatesMeaning(blocks[..n], count);
      assert blocks == blocks[..n] + [blocks[n]];
      OrderedSnoc(blocks[..n], Candidates(blocks[..n], count), blocks[n]);
    }
  }

  /** The blocks of level 1 of an accepted text. */
  ghost predicate LevelOne(text: string, delims: set<char>, first: seq<BlockView>) {
    && Ordered(first)
    && (forall b :: b in first ==> ClosedBlock(b, text, delims) && b.level == 1)
    && (forall p, q :: Outermost(text, p, q) ==> exists b :: b in first && b.start == p && b.end == Some(q))
    && (first == [] <==> !HasBrackets(text))
  }

  lemma PairHasBlock(text: string, delims: set<char>, blocks: seq<BlockView>, p: int, q: int)
    requires Forest(text, blocks) && (forall b :: b in blocks ==> ClosedBlock(b, text, delims)) && Outermost(text, p, q)
    ensures exists b :: b in blocks && b.level == 1 && b.start == p && b.end == Some(q)
  {
    var k :| 0 <= k < |blocks| && blocks[k].start == p;
    BlockOfPair(text, delims, blocks[k]);
  }

  lemma BracketHasBlock(text: string, delims: set<char>, blocks: seq<BlockView>)
    requires Forest(text, blocks) && forall b :: b in blocks ==> ClosedBlock(b, text, delims)
    ensures HasBrackets(text) <==> exists b :: b in blocks && b.level == 1
  {
    if HasBrackets(text) {
      var p :| 0 <= p < |text| && IsOpen(text[p]);
      var k :| 0 <= k < |blocks| && blocks[k].start == p;
      assert ClosedBlock(blocks[k], text, delims);
      if blocks[k].level > 1 {
        var j := AncestorExists(text, blocks, k, 1);
      }
    }
  }

  lemma FirstLevel(text: string, delims: set<char>)
    requires Tree(text, delims).Some?
    ensures LevelOne(text, delims, AtLevel(Tree(text, delims).value, 1))
  {
    var bs := Tree(text, delims).value;
    TreeAccepts(text, delims);
    TreeIsForest(text, delims);
    ScanLeavesNoGaps(text, delims, |text|);
    var blocks := bs[..|bs| - 1];
    assert blocks == ScanTo(text, delims, |text|).value.closed;
    AtLevelMeaning(blocks, 1);
    BracketHasBlock(text, delims, blocks);
    forall p, q | Outermost(text, p, q)
      ensures exists b :: b in AtLevel(bs, 1) && b.start == p && b.end == Some(q)
    {
      PairHasBlock(text, delims, blocks, p, q);
    }
  }

  // ---------- candidates ----------

  /** A block of level 1 is a candidate iff its text is rich. */
  lemma CandidateIsRich(text: string, delims: set<char>, k: nat, b: BlockView)
    requires ClosedBlock(b, text, delims) && b.level == 1
    ensures b.maxCount > k && b.maxCount > 1 ==>
              b.maxDelimiter.Some? && Rich(text, delims, k, b.start, b.end.value, b.maxDelimiter.value)
    ensures forall q, d :: Rich(text, delims, k, b.start, q, d) ==>
              b.maxCount > k && b.maxCount > 1 && b.end == Some(q) && b.maxDelimiter == Some(d)
  {
    var inner := text[b.start + 1..b.end.value];
    BlockOfPair(text, delims, b);
    RecordWins(b, text, delims, b.start + 1, b.end.value);
    forall q, d | Rich(text, delims, k, b.start, q, d)
      ensures b.maxCount > k && b.maxCount > 1 && b.maxDelimiter == Some(d)
    {
      assert Outermost(text, b.start, q);
      WinnerUnique(inner, delims, d, b.maxDelimiter.value);
    }
  }

  lemma RichHasCandidate(text: string, delims: set<char>, k: nat, first: seq<BlockView>, p: int, q: int, d: char)
    requires LevelOne(text, delims, first) && Rich(text, delims, k, p, q, d)
    ensures exists b :: b in Candidates(first, k) && b.start == p && b.end == Some(q) && b.maxDelimiter == Some(d)
  {
    assert Outermost(text, p, q);
    var b :| b in first && b.start == p && b.end == Some(q);
    CandidatesMeaning(first, k);
    CandidateIsRich(text, delims, k, b);
  }

  lemma CandidatesAreRich(text: string, delims: set<char>, k: nat, first: seq<BlockView>)
    requires LevelOne(text, delims, first)
    ensures forall j :: 0 <= j < |Candidates(first, k)| ==>
              var b := Candidates(first, k)[j];
              && b in first && b.end.Some? && b.maxDelimiter.Some?
              && Rich(text, delims, k, b.start, b.end.value, b.maxDelimiter.value)
    ensures Ordered(Candidates(first, k))
  {
    CandidatesMeaning(first, k);
    forall j | 0 <= j < |Candidates(first, k)|
      ensures var b := Candidates(first, k)[j];
              && b in first && b.end.Some? && b.maxDelimiter.Some?
              && Rich(text, delims, k, b.start, b.end.value, b.maxDelimiter.value)
    {
      assert Candidates(first, k)[j] in Candidates(first, k);
      CandidateIsRich(text, delims, k, Candidates(first, k)[j]);
    }
  }

  /** The one rich outermost pair is the one candidate. */
  lemma OnlyRichIsFound(text: string, delims: set<char>, k: nat, first: seq<BlockView>, p: int, q: int, d: char)
    requires LevelOne(text, delims, first) && OnlyRich(text, delims, k, p, q, d)
    ensures var found := Candidates(first, k);
            && |found| == 1 && found[0] in first
            && found[0].start == p && found[0].end == Some(q) && found[0].maxDelimiter == Some(d)
  {
    var found := Candidates(first, k);
    CandidatesAreRich(text, delims, k, first);
    forall j | 0 <= j < |found|
      ensures found[j].end == Some(q)
    {
      assert Rich(text, delims, k, found[j].start, found[j].end.value, found[j].maxDelimiter.value);
    }
    if |found| > 1 {
      TwoEnds(found, q);
    }
    RichHasCandidate(text, delims, k, first, p, q, d);
  }

  lemma TwoEnds(blocks: seq<BlockView>, q: int)
    requires Ordered(blocks) && |blocks| > 1
    ensures exists j :: 0 <= j < |blocks| && blocks[j].end != Some(q)
  {
    assert blocks[0].end != Some(q) || blocks[1].end != Some(q);
  }

  /** The one candidate is the one rich outermost pair. */
  lemma FoundIsOnlyRich(text: string, delims: set<char>, k: nat, first: seq<BlockView>)
    requires LevelOne(text, delims, first) && |Candidates(first, k)| == 1
    ensures exists p, q, d :: OnlyRich(text, delims, k, p, q, d)
  {
    var b := Candidates(first, k)[0];
    CandidatesAreRich(text, delims, k, first);
    forall p, q, d | Rich(text, delims, k, p, q, d)
      ensures p == b.start && Some(q) == b.end
    {
      RichHasCandidate(text, delims, k, first, p, q, d);
    }
    assert OnlyRich(text, delims, k, b.start, b.end.value, b.maxDelimiter.value);
  }

  // ---------- the four results ----------

  /** What the rules are given for an accepted line. */
  lemma Accepted(line: string, delims: set<char>) returns (general: BlockView, first: seq<BlockView>)
    requires Closed(Strip(line))
    ensures Complete(general) && general.text == Some(Strip(line))
    ensures forall b :: b in first ==> Inner(b, Strip(line))
    ensures RawParse(line, delims) == Some(Choose(line, general, first)) && LevelOne(Strip(line), delims, first)
    ensures general.maxDelimiter.Some? ==>
              Wins(Strip(line), delims, general.maxDelimiter.value)
              && |TopsOf(Strip(line), general.maxDelimiter.value)| == general.maxCount
    ensures general.maxDelimiter.None? ==> AtMost(Strip(line), delims, 0)
  {
    var text := Strip(line);
    TreeAccepts(text, delims);
    ClosedIffBalanced(text);
    TreeComplete(text, delims);
    var bs := Tree(text, delims).value;
    general, first := bs[|bs| - 1], AtLevel(bs, 1);
    LevelOneInner(text, delims, bs);
    FirstLevel(text, delims);
    assert text[0..|text|] == text;
    RecordWins(general, text, delims, 0, |text|);
  }

  /** The favourite of an accepted line has exactly one number of occurrences. */
  lemma FavouriteCount(line: string, delims: set<char>) returns (k: nat)
    requires Closed(Strip(line))
    ensures forall j: nat :: Favourite(Strip(line), delims, j) <==> j == k
  {
    var general, first := Accepted(line, delims);
    k := general.maxCount;
    forall j: nat
      ensures Favourite(Strip(line), delims, j) <==> j == k
    {
      FavouriteIs(Strip(line), delims, general, j);
    }
  }

  lemma FavouriteIs(text: string, delims: set<char>, general: BlockView, k: nat)
    requires Complete(general) && general.text == Some(text)
    requires general.maxDelimiter.Some? ==>
               Wins(text, delims, general.maxDelimiter.value)
               && |TopsOf(text, general.maxDelimiter.value)| == general.maxCount
    requires general.maxDelimiter.None? ==> AtMost(text, delims, 0)
    ensures Favourite(text, delims, k) <==> general.maxCount == k
    ensures forall d :: Wins(text, delims, d) ==> general.maxDelimiter == Some(d)
  {
    forall d | Wins(text, delims, d)
      ensures general.maxDelimiter == Some(d)
    {
      if general.maxDelimiter.Some? {
        WinnerUnique(text, delims, d, general.maxDelimiter.value);
      }
    }
  }

  /** No brackets and no delimiter: the whole line. */
  lemma PlainLine(line: string, delims: set<char>)
    requires Closed(Strip(line)) && !HasBrackets(Strip(line)) && AtMost(Strip(line), delims, 0)
    ensures RawParse(line, delims) == Some(Parsed(Some(Strip(line)), None, None, [Strip(line)], 1))
  {
    var general, first := Accepted(line, delims);
    FavouriteIs(Strip(line), delims, general, 0);
  }

  lemma CutOnce(text: string, p: nat)
    requires p < |text|
    ensures Cut(text, [p]) == [text[..p], text[p + 1..]]
  {
    CutInRange([p], |text|, 0);
    CutInRange([p], |text|, 1);
    assert text[0..p] == text[..p] && text[p + 1..|text|] == text[p + 1..];
  }

  /** No brackets and a favourite that occurs once, at p: the head is the part, the tail the postfix. */
  lemma HeadAndPostfix(line: string, delims: set<char>, p: nat, d: char)
    requires Closed(Strip(line)) && !HasBrackets(Strip(line))
    requires Wins(Strip(line), delims, d) && TopsOf(Strip(line), d) == [p]
    ensures p < |Strip(line)|
    ensures RawParse(line, delims)
            == Some(Parsed(Some(Strip(line)), None, Some(Strip(line)[p + 1..]), [Strip(line)[..p]], 1))
  {
    var text := Strip(line);
    var general, first := Accepted(line, delims);
    FavouriteIs(text, delims, general, 1);
    TopsOfMeaning(text, d);
    assert p in TopsOf(text, d);
    CutOnce(text, p);
  }

  lemma ChosenInside(line: string, general: BlockView, first: seq<BlockView>, k: nat, p: nat, q: nat, d: char)
    requires Complete(general) && general.maxCount == k <= 1
    requires first != [] && forall b :: b in first ==> Inner(b, general.text.value)
    requires var found := Candidates(first, k);
             && |found| == 1 && found[0] in first
             && found[0].start == p && found[0].end == Some(q) && found[0].maxDelimiter == Some(d)
    ensures p < q < |general.text.value|
    ensures var text := general.text.value;
            var parts := Pieces(text[p + 1..q], d);
            Choose(line, general, first) == Parsed(Some(text), Some(text[..p]), Some(text[q + 1..]), parts, |parts|)
  {
    var c := Candidates(first, k)[0];
    assert c in Candidates(first, k) && Inner(c, general.text.value);
  }

  /** Brackets, a favourite that occurs at most once outside them, and one rich outermost pair: what stands before
      the pair is the prefix, what stands behind it the postfix, and the parts are cut from its text. */
  lemma CutInBrackets(line: string, delims: set<char>, k: nat, p: nat, q: nat, d: char)
    requires Closed(Strip(line)) && k <= 1 && Favourite(Strip(line), delims, k)
    requires OnlyRich(Strip(line), delims, k, p, q, d)
    ensures var text := Strip(line);
            var parts := Pieces(text[p + 1..q], d);
            RawParse(line, delims) == Some(Parsed(Some(text), Some(text[..p]), Some(text[q + 1..]), parts, |parts|))
  {
    var text := Strip(line);
    var general, first := Accepted(line, delims);
    FavouriteIs(text, delims, general, k);
    assert Rich(text, delims, k, p, q, d);
    OnlyRichIsFound(text, delims, k, first, p, q, d);
    ChosenInside(line, general, first, k, p, q, d);
  }

  /** Brackets, a favourite that occurs at most once outside them, and no rich outermost pair or several: the whole
      line, as it was given. */
  lemma KeptWhole(line: string, delims: set<char>, k: nat)
    requires Closed(Strip(line)) && HasBrackets(Strip(line)) && k <= 1 && Favourite(Strip(line), delims, k)
    requires forall p, q, d :: !OnlyRich(Strip(line), delims, k, p, q, d)
    ensures RawParse(line, delims) == Some(Parsed(Some(line), None, None, [line], 1))
  {
    var text := Strip(line);
    var general, first := Accepted(line, delims);
    FavouriteIs(text, delims, general, k);
    if |Candidates(first, k)| == 1 {
      FoundIsOnlyRich(text, delims, k, first);
    }
  }

  /** What parse adds: white space goes at both ends of every part, of the prefix and of the postfix, and the last
      part goes if nothing is left of it. */
  lemma FinalFields(line: string, delims: set<char>)
    requires Closed(Strip(line))
    ensures RawParse(line, delims).Some? && FinalParse(line, delims).Some?
    ensures var raw, final := RawParse(line, delims).value, FinalParse(line, delims).value;
            && final.material == raw.material && final.partsCount == raw.partsCount
            && |raw.parts| > 0
            && |final.parts| == (if AllSpace(raw.parts[|raw.parts| - 1]) then |raw.parts| - 1 else |raw.parts|)
            && (forall j :: 0 <= j < |final.parts| ==> final.parts[j] == Strip(raw.parts[j]))
            && (final.prefix.Some? <==> raw.prefix.Some?) && (final.postfix.Some? <==> raw.postfix.Some?)
            && (raw.prefix.Some? ==> final.prefix.value == Strip(raw.prefix.value))
            && (raw.postfix.Some? ==> final.postfix.value == Strip(raw.postfix.value))
  {
    var _, _ := Accepted(line, delims);
    PartsBalanced(line, delims);
    StrippedParts(RawParse(line, delims).value.parts);
  }

  lemma StrippedParts(parts: seq<string>)
    requires |parts| > 0
    ensures var final := DropBlankLast(StripAll(parts));
            && |final| == (if AllSpace(parts[|parts| - 1]) then |parts| - 1 else |parts|)
            && forall j :: 0 <= j < |final| ==> final[j] == Strip(parts[j])
  {
    BlankIff(parts[|parts| - 1]);
  }

  lemma BlankIff(s: string)
    ensures Strip(s) == "" <==> AllSpace(s)
  {
    var before, after := StripShape(s);
    assert Strip(s) != "" ==> s[|before|] == Strip(s)[0];
  }
}
