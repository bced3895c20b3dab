/** What ParserV2 (processors/materials/parser.py) makes of a line, stated on the block tree and the
    pieces of balanced texts, without the scanner's loops and without the clean-up step. */
module MaterialRules {
  import opened Text
  import opened BracketWords
  import opened MaterialBlocks
  import opened MaterialCut

  /** The fields of a ParseResults. */
  datatype Parsed = Parsed(
    material: Option<string>,
    prefix: Option<string>,
    postfix: Option<string>,
    parts: seq<string>,
    partsCount: nat)

  function AtLevel(blocks: seq<BlockView>, level: nat): (r: seq<BlockView>)
    ensures forall b :: b in r ==> b in blocks && b.level == level
  {
    if blocks == [] then []
    else
      var before := AtLevel(blocks[..|blocks| - 1], level);
      if blocks[|blocks| - 1].level == level then before + [blocks[|blocks| - 1]] else before
  }

  /** Blocks with more than one delimiter of a kind, and more than the whole line has. */
  function Candidates(blocks: seq<BlockView>, count: nat): (r: seq<BlockView>)
    ensures forall b :: b in r ==> b in blocks && b.maxCount > count && b.maxCount > 1
  {
    if blocks == [] then []
    else
      var before := Candidates(blocks[..|blocks| - 1], count);
      var b := blocks[|blocks| - 1];
      if b.maxCount > count && b.maxCount > 1 then before + [b] else before
  }

  /** A block whose record is complete: its text, and the majority of its own delimiters in it. */
  ghost predicate Complete(b: BlockView) {
    && b.text.Some? && Closed(b.text.value)
    && (b.maxDelimiter.None? <==> b.maxCount == 0)
    && (b.maxDelimiter.Some? ==>
          !IsBracket(b.maxDelimiter.value) && |TopsOf(b.text.value, b.maxDelimiter.value)| == b.maxCount)
  }

  ghost predicate CompleteTree(text: string, delims: set<char>, bs: seq<BlockView>) {
    && |bs| > 0
    && GeneralBlock(bs[|bs| - 1], text, delims, |text|)
    && (forall k :: 0 <= k < |bs| - 1 ==> ClosedBlock(bs[k], text, delims))
    && (forall b :: b in bs ==> Complete(b))
  }

  function OwnPieces(b: BlockView): (parts: seq<string>)
    requires Complete(b) && b.maxCount > 0
    ensures |parts| == b.maxCount + 1
  {
    Pieces(b.text.value, b.maxDelimiter.value)
  }

  function NoBrackets(general: BlockView): Parsed
    requires Complete(general)
  {
    var text := general.text;
    if general.maxCount == 0 then Parsed(text, None, None, [text.value], 1)
    else
      var parts := OwnPieces(general);
      if general.maxCount == 1 then Parsed(text, None, Some(parts[1]), [parts[0]], 1)
      else Parsed(text, None, None, parts, |parts|)
  }

  /** A complete bracket block of the line `text`. */
  ghost predicate Inner(b: BlockView, text: string) {
    && Complete(b) && b.end.Some? && 0 <= b.start < b.end.value < |text|
    && IsOpen(text[b.start]) && IsClose(text[b.end.value])
    && CheckBracket(text[b.start]) == CheckBracket(text[b.end.value])
    && b.text.value == text[b.start + 1..b.end.value]
  }

  /** The choice _parse makes, from the block of the whole line and the blocks of level 1. */
  function Choose(line: string, general: BlockView, first: seq<BlockView>): Parsed
    requires Complete(general) && forall b :: b in first ==> Inner(b, general.text.value)
  {
    var text := general.text.value;
    if first == [] then NoBrackets(general)
    else
      var candidates := Candidates(first, general.maxCount);
      if general.maxCount > 1 then
        var parts := OwnPieces(general);
        Parsed(general.text, None, None, parts, |parts|)
      else if |candidates| == 1 then
        var c := candidates[0];
        assert c in candidates && c in first && Inner(c, general.text.value);
        var parts := OwnPieces(c);
        Parsed(general.text, Some(text[..c.start]), Some(text[c.end.value + 1..]), parts, |parts|)
      else Parsed(Some(line), None, None, [line], 1)
  }

  lemma LevelOneInner(text: string, delims: set<char>, bs: seq<BlockView>)
    requires CompleteTree(text, delims, bs)
    ensures Complete(bs[|bs| - 1]) && bs[|bs| - 1].text == Some(text)
    ensures forall b :: b in AtLevel(bs, 1) ==> Inner(b, text)
  {
    forall b | b in AtLevel(bs, 1)
      ensures Inner(b, text)
    {
      var k :| 0 <= k < |bs| && bs[k] == b;
      assert ClosedBlock(b, text, delims);
    }
  }

  function FromTree(line: string, text: string, delims: set<char>, bs: seq<BlockView>): Parsed
    requires CompleteTree(text, delims, bs)
  {
    LevelOneInner(text, delims, bs);
    Choose(line, bs[|bs| - 1], AtLevel(bs, 1))
  }

  lemma RecordComplete(b: BlockView, line: string, delims: set<char>, a: nat, e: nat)
    requires a <= e <= |line| && Tallies(b, line, delims, a, e) && Majority(b)
    requires b.text == Some(line[a..e]) && Closed(line[a..e])
    ensures Complete(b)
    ensures forall d :: d in b.delims ==> b.delims[d] == Shift(TopsOf(line[a..e], d), a)
  {
    forall d | d in b.delims
      ensures b.delims[d] == Shift(TopsOf(line[a..e], d), a)
    {
      TopsOfSlice(line, a, e, d);
    }
  }

  lemma TreeComplete(text: string, delims: set<char>)
    requires Tree(text, delims).Some?
    ensures CompleteTree(text, delims, Tree(text, delims).value)
  {
    var bs := Tree(text, delims).value;
    TreeAccepts(text, delims);
    ClosedIffBalanced(text);
    forall b | b in bs
      ensures Complete(b)
    {
      if b == bs[|bs| - 1] {
        assert text[0..|text|] == text;
        RecordComplete(b, text, delims, 0, |text|);
      } else {
        RecordComplete(b, text, delims, b.start + 1, b.end.value);
      }
    }
  }

  /** _parse: None where the source raises. */
  function RawParse(line: string, delims: set<char>): Option<Parsed> {
    var text := Strip(line);
    match Tree(text, delims)
    case None => None
    case Some(bs) =>
      TreeComplete(text, delims);
      Some(FromTree(line, text, delims, bs))
  }

  function StripAll(parts: seq<string>): seq<string> {
    seq(|parts|, k requires 0 <= k < |parts| => Strip(parts[k]))
  }

  function StripOption(s: Option<string>): Option<string> {
    if s.Some? then Some(Strip(s.value)) else None
  }

  function DropBlankLast(parts: seq<string>): seq<string> {
    if parts != [] && parts[|parts| - 1] == [] then parts[..|parts| - 1] else parts
  }

  /** parse: the stripped parts of _parse, minus the last one when blank; prefix and postfix stripped. */
  function FinalParse(line: string, delims: set<char>): Option<Parsed> {
    match RawParse(line, delims)
    case None => None
    case Some(r) =>
      Some(r.(parts := DropBlankLast(StripAll(r.parts)),
              prefix := StripOption(r.prefix), postfix := StripOption(r.postfix)))
  }

  // ---------- main results ----------

  ghost predicate AllClosed(parts: seq<string>) {
    |parts| > 0 && forall k :: 0 <= k < |parts| ==> Closed(parts[k])
  }

  lemma ChosenBalanced(line: string, general: BlockView, first: seq<BlockView>)
    requires Complete(general) && (forall b :: b in first ==> Inner(b, general.text.value)) && Closed(line)
    ensures AllClosed(Choose(line, general, first).parts)
  {
    var candidates := Candidates(first, general.maxCount);
    if general.maxCount > 0 {
      OwnPiecesCover(general);
    } else if |candidates| == 1 {
      assert candidates[0] in candidates && candidates[0] in first;
      OwnPiecesCover(candidates[0]);
    }
    if |candidates| == 1 {
      assert candidates[0] in candidates && candidates[0] in first;
      OwnPiecesCover(candidates[0]);
    }
  }

  /** Every part of an accepted line is balanced by itself. */
  lemma PartsBalanced(line: string, delims: set<char>)
    requires RawParse(line, delims).Some?
    ensures AllClosed(RawParse(line, delims).value.parts)
  {
    var text := Strip(line);
    var bs := Tree(text, delims).value;
    TreeComplete(text, delims);
    LevelOneInner(text, delims, bs);
    StripKeepsBalance(line);
    ChosenBalanced(line, bs[|bs| - 1], AtLevel(bs, 1));
  }

  /** How a result of _parse covers the text it was made from. */
  datatype Cover = Whole | HeadTail(d: char) | Split(d: char) | Inside(open: char, d: char, close: char)

  ghost function Rebuild(r: Parsed, how: Cover): string
    requires |r.parts| > 0
    requires how.HeadTail? ==> r.postfix.Some?
    requires how.Inside? ==> r.prefix.Some? && r.postfix.Some?
  {
    match how
    case Whole => Strip(r.parts[0])
    case HeadTail(d) => r.parts[0] + [d] + r.postfix.value
    case Split(d) => Join(r.parts, d)
    case Inside(open, d, close) => r.prefix.value + [open] + Join(r.parts, d) + [close] + r.postfix.value
  }

  /** Which of the four shapes applies, and what the unused fields hold. */
  ghost predicate Shaped(r: Parsed, how: Cover, delims: set<char>) {
    && |r.parts| == r.partsCount > 0
    && match how
       case Whole => |r.parts| == 1 && r.prefix.None? && r.postfix.None?
       case HeadTail(d) => d in delims && |r.parts| == 1 && r.prefix.None? && r.postfix.Some? && Atomic(r.parts[0], d)
       case Split(d) => d in delims && |r.parts| >= 3 && r.prefix.None? && r.postfix.None?
                        && forall k :: 0 <= k < |r.parts| ==> Atomic(r.parts[k], d)
       case Inside(open, d, close) =>
         && d in delims && |r.parts| >= 3 && r.prefix.Some? && r.postfix.Some?
         && IsOpen(open) && IsClose(close) && CheckBracket(open) == CheckBracket(close)
         && forall k :: 0 <= k < |r.parts| ==> Atomic(r.parts[k], d)
  }

  /** A block's pieces cover its text. */
  lemma OwnPiecesCover(b: BlockView)
    requires Complete(b) && b.maxCount > 0
    ensures Join(OwnPieces(b), b.maxDelimiter.value) == b.text.value
    ensures b.maxCount == 1 ==> OwnPieces(b)[0] + [b.maxDelimiter.value] + OwnPieces(b)[1] == b.text.value
    ensures forall k :: 0 <= k <= b.maxCount ==> Atomic(OwnPieces(b)[k], b.maxDelimiter.value)
  {
    PiecesMeaning(b.text.value, b.maxDelimiter.value);
    assert b.maxCount == 1 ==> OwnPieces(b)[1..] == [OwnPieces(b)[1]];
  }

  ghost predicate Known(b: BlockView, delims: set<char>) {
    b.maxDelimiter.Some? ==> b.maxDelimiter.value in delims
  }

  lemma DelimitersKnown(text: string, delims: set<char>, bs: seq<BlockView>)
    requires CompleteTree(text, delims, bs)
    ensures forall b :: b in bs ==> Known(b, delims)
  {
  }

  lemma InsideRebuilds(text: string, c: BlockView)
    requires Inner(c, text) && c.maxCount > 1
    ensures text == text[..c.start] + [text[c.start]] + Join(OwnPieces(c), c.maxDelimiter.value)
                    + [text[c.end.value]] + text[c.end.value + 1..]
  {
    OwnPiecesCover(c);
    assert text == text[..c.start] + [text[c.start]] + text[c.start + 1..c.end.value]
                   + [text[c.end.value]] + text[c.end.value + 1..];
  }

  ghost function CoverOf(general: BlockView, first: seq<BlockView>): Cover
    requires Complete(general) && forall b :: b in first ==> Inner(b, general.text.value)
  {
    var candidates := Candidates(first, general.maxCount);
    if general.maxCount > 1 then Split(general.maxDelimiter.value)
    else if first == [] then
      if general.maxCount == 1 then HeadTail(general.maxDelimiter.value) else Whole
    else if |candidates| == 1 then
      var c := candidates[0];
      assert c in candidates && c in first && Inner(c, general.text.value);
      Inside(general.text.value[c.start], c.maxDelimiter.value, general.text.value[c.end.value])
    else Whole
  }

  lemma ChosenCovered(line: string, general: BlockView, first: seq<BlockView>, delims: set<char>)
    requires Complete(general) && general.text == Some(Strip(line)) && Known(general, delims)
    requires forall b :: b in first ==> Inner(b, general.text.value) && Known(b, delims)
    ensures Shaped(Choose(line, general, first), CoverOf(general, first), delims)
    ensures Rebuild(Choose(line, general, first), CoverOf(general, first)) == general.text.value
  {
    StripIdempotent(line);
    var candidates := Candidates(first, general.maxCount);
    if general.maxCount > 0 {
      OwnPiecesCover(general);
    }
    if |candidates| == 1 {
      assert candidates[0] in candidates && candidates[0] in first;
      OwnPiecesCover(candidates[0]);
      InsideRebuilds(general.text.value, candidates[0]);
    }
  }

  /** _parse loses no text: one of the four shapes rebuilds the stripped line exactly. */
  lemma ParseLosesNothing(line: string, delims: set<char>) returns (how: Cover)
    requires RawParse(line, delims).Some?
    ensures Shaped(RawParse(line, delims).value, how, delims)
    ensures Rebuild(RawParse(line, delims).value, how) == Strip(line)
  {
    var text := Strip(line);
    var bs := Tree(text, delims).value;
    TreeComplete(text, delims);
    LevelOneInner(text, delims, bs);
    DelimitersKnown(text, delims, bs);
    how := CoverOf(bs[|bs| - 1], AtLevel(bs, 1));
    ChosenCovered(line, bs[|bs| - 1], AtLevel(bs, 1), delims);
  }

  /** d is the favourite among the line's own delimiters: most frequent, first to get there on a tie. */
  ghost predicate Wins(text: string, delims: set<char>, d: char) {
    && d in delims && !IsBracket(d) && TopsOf(text, d) != []
    && forall e :: e in delims && !IsBracket(e) && e != d && TopsOf(text, e) != [] ==> Loses(text, d, e)
  }

  ghost predicate Loses(text: string, d: char, e: char)
    requires TopsOf(text, d) != [] && TopsOf(text, e) != []
  {
    var w, l := TopsOf(text, d), TopsOf(text, e);
    |l| < |w| || (|l| == |w| && w[|w| - 1] < l[|l| - 1])
  }

  lemma FavouriteWins(b: BlockView, text: string, delims: set<char>)
    requires GeneralBlock(b, text, delims, |text|)
    ensures b.maxDelimiter.Some? ==>
              Wins(text, delims, b.maxDelimiter.value) && |TopsOf(text, b.maxDelimiter.value)| == b.maxCount
    ensures b.maxDelimiter.None? ==> forall d :: d in delims && !IsBracket(d) ==> TopsOf(text, d) == []
  {
    if b.maxDelimiter.Some? {
      var d := b.maxDelimiter.value;
      forall e | e in delims && !IsBracket(e) && e != d && TopsOf(text, e) != []
        ensures Loses(text, d, e)
      {
        assert e in b.delims && Behind(b, e);
      }
    }
  }

  lemma WinnerUnique(text: string, delims: set<char>, d: char, e: char)
    requires Wins(text, delims, d) && Wins(text, delims, e)
    ensures d == e
  {
  }

  /** A line whose favourite delimiter occurs at least twice outside brackets is cut at it, whatever is
      inside the brackets. */
  lemma CutAtWinner(line: string, delims: set<char>, d: char)
    requires Closed(Strip(line)) && Wins(Strip(line), delims, d) && |TopsOf(Strip(line), d)| >= 2
    ensures var parts := Pieces(Strip(line), d);
            RawParse(line, delims) == Some(Parsed(Some(Strip(line)), None, None, parts, |parts|))
  {
    var text := Strip(line);
    TreeAccepts(text, delims);
    ClosedIffBalanced(text);
    TreeComplete(text, delims);
    var bs := Tree(text, delims).value;
    var general := bs[|bs| - 1];
    FavouriteWins(general, text, delims);
    WinnerUnique(text, delims, d, general.maxDelimiter.value);
    LevelOneInner(text, delims, bs);
  }

  /** The clean-up of the last part looks for a closing round bracket with no opening one before it. */
  ghost predicate StrayRound(s: string, i: int) {
    0 <= i < |s| && s[i] == ')' && forall k :: 0 <= k < i ==> s[k] != '(' && s[k] != '[' && s[k] != ')'
  }

  lemma {:induction false} NoRoundOpen(s: string)
    requires OpenStack(s).Some? && forall k :: 0 <= k < |s| ==> s[k] != '('
    ensures Round !in OpenStack(s).value
  {
    if s != [] {
      NoRoundOpen(s[..|s| - 1]);
    }
  }

  /** A balanced part has no stray closing bracket, so the clean-up leaves it alone. */
  lemma NothingToClean(s: string, i: int)
    requires Closed(s)
    ensures !StrayRound(s, i)
  {
    if StrayRound(s, i) {
      assert s[..i + 1] == s[..i] + [s[i]];
      OpenStackSnoc(s[..i], s[i]);
      OpenStackPrefix(s, i);
      OpenStackPrefix(s, i + 1);
      NoRoundOpen(s[..i]);
    }
  }
}
