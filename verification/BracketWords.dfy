/** The language decided by the bracket scanner of processors/materials/parser.py: words over three
    typed bracket pairs, given once as a grammar (Word) and once as a stack machine (OpenStack). */
module BracketWords {
  import opened Text

  datatype BracketType = Round | Figure | Square | Empty

  function CheckBracket(c: char): Option<BracketType> {
    if c == '(' || c == ')' then Some(Round)
    else if c == '{' || c == '}' then Some(Figure)
    else if c == '[' || c == ']' then Some(Square)
    else if c == '$' then Some(Empty)
    else None
  }

  predicate IsOpen(c: char) { c == '(' || c == '[' || c == '{' }

  predicate IsClose(c: char) { c == '}' || c == ']' || c == ')' }

  predicate IsBracket(c: char) { IsOpen(c) || IsClose(c) }

  // ---------- the grammar ----------

  datatype Word =
    | Done
    | Plain(c: char, rest: Word)
    | Group(open: char, inner: Word, close: char, next: Word)

  predicate Pair(open: char, close: char) {
    (open == '(' && close == ')') || (open == '[' && close == ']') || (open == '{' && close == '}')
  }

  ghost predicate WellFormed(w: Word) {
    match w
    case Done => true
    case Plain(c, rest) => c !in "()[]{}" && WellFormed(rest)
    case Group(open, inner, close, next) => Pair(open, close) && WellFormed(inner) && WellFormed(next)
  }

  /** The scanner's tables know the same brackets as the grammar. */
  lemma SameBrackets(c: char, d: char)
    ensures IsBracket(c) <==> c in "()[]{}"
    ensures IsOpen(c) && IsClose(d) && CheckBracket(c) == CheckBracket(d) <==> Pair(c, d)
  {
  }

  function Print(w: Word): string {
    match w
    case Done => []
    case Plain(c, rest) => [c] + Print(rest)
    case Group(open, inner, close, next) => [open] + Print(inner) + [close] + Print(next)
  }

  /** s is a balanced word over the three bracket pairs. */
  ghost predicate Balanced(s: string) {
    exists w :: WellFormed(w) && Print(w) == s
  }

  function Append(u: Word, v: Word): Word {
    match u
    case Done => v
    case Plain(c, rest) => Plain(c, Append(rest, v))
    case Group(open, inner, close, next) => Group(open, inner, close, Append(next, v))
  }

  lemma {:induction false} PrintAppend(u: Word, v: Word)
    requires WellFormed(u) && WellFormed(v)
    ensures WellFormed(Append(u, v)) && Print(Append(u, v)) == Print(u) + Print(v)
  {
    match u
    case Done =>
    case Plain(_, rest) => PrintAppend(rest, v);
    case Group(_, _, _, next) => PrintAppend(next, v);
  }

  lemma BalancedConcat(s: string, t: string)
    requires Balanced(s) && Balanced(t)
    ensures Balanced(s + t)
  {
    var u :| WellFormed(u) && Print(u) == s;
    var v :| WellFormed(v) && Print(v) == t;
    PrintAppend(u, v);
  }

  lemma BalancedPlain(c: char)
    requires !IsBracket(c)
    ensures Balanced([c])
  {
    var w := Plain(c, Done);
    SameBrackets(c, c);
    assert Print(w) == [c] + Print(Done) && Print(Done) == [];
    assert WellFormed(w) && Print(w) == [c];
  }

  lemma BalancedGroup(open: char, s: string, close: char)
    requires IsOpen(open) && IsClose(close) && CheckBracket(open) == CheckBracket(close) && Balanced(s)
    ensures Balanced([open] + s + [close])
  {
    var w :| WellFormed(w) && Print(w) == s;
    var g := Group(open, w, close, Done);
    assert Print(g) == [open] + Print(w) + [close] + Print(Done) && Print(Done) == [];
    assert WellFormed(g) && Print(g) == [open] + s + [close];
  }

  // ---------- the stack machine ----------

  /** The types of the brackets still open after reading s, or None when a closing bracket was wrong. */
  function OpenStack(s: string): Option<seq<BracketType>> {
    if s == [] then Some([])
    else
      match OpenStack(s[..|s| - 1])
      case None => None
      case Some(open) => Push(open, s[|s| - 1])
  }

  function Push(open: seq<BracketType>, c: char): Option<seq<BracketType>> {
    if IsOpen(c) then Some(open + [CheckBracket(c).value])
    else if IsClose(c) then
      if open != [] && CheckBracket(c).value == open[|open| - 1] then Some(open[..|open| - 1]) else None
    else Some(open)
  }

  predicate Closed(s: string) { OpenStack(s) == Some([]) }

  lemma OpenStackSnoc(s: string, c: char)
    ensures OpenStack(s + [c]) == if OpenStack(s).None? then None else Push(OpenStack(s).value, c)
  {
    assert (s + [c])[..|s|] == s;
  }

  lemma {:induction false} OpenStackPrefix(s: string, n: nat)
    requires n <= |s| && OpenStack(s).Some?
    ensures OpenStack(s[..n]).Some?
  {
    if n == |s| {
      assert s[..n] == s;
    } else {
      OpenStackPrefix(s[..|s| - 1], n);
      assert s[..|s| - 1][..n] == s[..n];
    }
  }

  /** A reading of v that never fails does the same on top of any stack. */
  lemma {:induction false} OpenStackConcat(u: string, v: string)
    requires OpenStack(u).Some? && OpenStack(v).Some?
    ensures OpenStack(u + v) == Some(OpenStack(u).value + OpenStack(v).value)
  {
    if v == [] {
      assert u + v == u;
      assert OpenStack(u).value + [] == OpenStack(u).value;
    } else {
      OpenStackConcat(u, v[..|v| - 1]);
      assert u + v == (u + v[..|v| - 1]) + [v[|v| - 1]];
      OpenStackSnoc(u + v[..|v| - 1], v[|v| - 1]);
      var below, open := OpenStack(u).value, OpenStack(v[..|v| - 1]).value;
      if IsOpen(v[|v| - 1]) {
        var k := CheckBracket(v[|v| - 1]).value;
        assert (below + open) + [k] == below + (open + [k]);
      } else if open != [] {
        assert (below + open)[..|below + open| - 1] == below + open[..|open| - 1];
      }
    }
  }

  /** After a closed prefix the machine is back where it began. */
  lemma {:induction false} OpenStackAfterClosed(u: string, v: string)
    requires Closed(u)
    ensures OpenStack(u + v) == OpenStack(v)
  {
    if v == [] {
      assert u + v == u;
    } else {
      OpenStackAfterClosed(u, v[..|v| - 1]);
      assert u + v == (u + v[..|v| - 1]) + [v[|v| - 1]];
      OpenStackSnoc(u + v[..|v| - 1], v[|v| - 1]);
    }
  }

  lemma PlainClosed(c: char)
    requires !IsBracket(c)
    ensures Closed([c])
  {
    OpenStackSnoc([], c);
    assert [] + [c] == [c];
  }

  lemma GroupClosed(open: char, s: string, close: char)
    requires IsOpen(open) && IsClose(close) && CheckBracket(open) == CheckBracket(close) && Closed(s)
    ensures Closed([open] + s + [close])
  {
    var t := CheckBracket(open).value;
    OpenStackSnoc([], open);
    assert [] + [open] == [open];
    assert [] + [t] == [t] && [t] + [] == [t];
    assert OpenStack([open]) == Some([t]);
    OpenStackConcat([open], s);
    assert OpenStack([open] + s) == Some([t]);
    OpenStackSnoc([open] + s, close);
    assert [t][..0] == [];
  }

  lemma {:induction false} PrintedIsClosed(w: Word)
    requires WellFormed(w)
    ensures Closed(Print(w))
  {
    match w
    case Done =>
    case Plain(c, rest) =>
      PrintedIsClosed(rest);
      PlainClosed(c);
      OpenStackAfterClosed([c], Print(rest));
    case Group(open, inner, close, next) =>
      PrintedIsClosed(inner);
      PrintedIsClosed(next);
      GroupClosed(open, Print(inner), close);
      OpenStackAfterClosed([open] + Print(inner) + [close], Print(next));
  }

  /** Texts with an unmatched opening bracket between each two. */
  ghost function Assemble(opens: seq<char>, regions: seq<string>): string
    requires |regions| == |opens| + 1
  {
    if opens == [] then regions[0]
    else
      var n := |opens|;
      Assemble(opens[..n - 1], regions[..n]) + [opens[n - 1]] + regions[n]
  }

  ghost predicate AllBalanced(regions: seq<string>) {
    forall k :: 0 <= k < |regions| ==> Balanced(regions[k])
  }

  ghost predicate OpenedBy(opens: seq<char>, types: seq<BracketType>) {
    |opens| == |types| && forall k :: 0 <= k < |opens| ==> IsOpen(opens[k]) && CheckBracket(opens[k]) == Some(types[k])
  }

  lemma AssembleExtend(opens: seq<char>, regions: seq<string>, t: string)
    requires |regions| == |opens| + 1 && AllBalanced(regions) && Balanced(t)
    ensures var n := |opens|;
            && AllBalanced(regions[n := regions[n] + t])
            && Assemble(opens, regions[n := regions[n] + t]) == Assemble(opens, regions) + t
  {
    var n := |opens|;
    BalancedConcat(regions[n], t);
    var regions' := regions[n := regions[n] + t];
    if n > 0 {
      assert regions'[..n] == regions[..n];
      var front := Assemble(opens[..n - 1], regions[..n]) + [opens[n - 1]];
      assert front + (regions[n] + t) == (front + regions[n]) + t;
    }
  }

  lemma AssembleOpen(opens: seq<char>, regions: seq<string>, c: char)
    requires |regions| == |opens| + 1 && AllBalanced(regions)
    ensures AllBalanced(regions + [[]])
    ensures Assemble(opens + [c], regions + [[]]) == Assemble(opens, regions) + [c]
  {
    assert WellFormed(Done) && Print(Done) == [];
    var n := |opens|;
    assert (opens + [c])[..n] == opens && (regions + [[]])[..n + 1] == regions;
    assert Assemble(opens, regions) + [c] + [] == Assemble(opens, regions) + [c];
  }

  lemma AssembleClose(opens: seq<char>, regions: seq<string>, c: char) returns (regions': seq<string>)
    requires |regions| == |opens| + 1 && opens != [] && AllBalanced(regions)
    requires IsOpen(opens[|opens| - 1]) && IsClose(c) && CheckBracket(opens[|opens| - 1]) == CheckBracket(c)
    ensures |regions'| == |opens| && AllBalanced(regions')
    ensures Assemble(opens[..|opens| - 1], regions') == Assemble(opens, regions) + [c]
  {
    var n := |opens|;
    var group := [opens[n - 1]] + regions[n] + [c];
    BalancedGroup(opens[n - 1], regions[n], c);
    AssembleExtend(opens[..n - 1], regions[..n], group);
    regions' := regions[..n][n - 1 := regions[n - 1] + group];
    var front := Assemble(opens[..n - 1], regions[..n]);
    assert front + group == front + [opens[n - 1]] + regions[n] + [c];
  }

  lemma RegionsStep(opens: seq<char>, regions: seq<string>, types: seq<BracketType>, c: char)
    returns (opens': seq<char>, regions': seq<string>)
    requires OpenedBy(opens, types) && |regions| == |opens| + 1 && AllBalanced(regions) && Push(types, c).Some?
    ensures OpenedBy(opens', Push(types, c).value) && |regions'| == |opens'| + 1 && AllBalanced(regions')
    ensures Assemble(opens', regions') == Assemble(opens, regions) + [c]
  {
    var n := |opens|;
    if IsOpen(c) {
      AssembleOpen(opens, regions, c);
      opens', regions' := opens + [c], regions + [[]];
    } else if IsClose(c) {
      regions' := AssembleClose(opens, regions, c);
      opens' := opens[..n - 1];
    } else {
      BalancedPlain(c);
      AssembleExtend(opens, regions, [c]);
      opens', regions' := opens, regions[n := regions[n] + [c]];
    }
  }

  /** A text the machine gets through is balanced between its unmatched brackets. */
  lemma {:induction false} Regions(s: string) returns (opens: seq<char>, regions: seq<string>)
    requires OpenStack(s).Some?
    ensures OpenedBy(opens, OpenStack(s).value) && |regions| == |opens| + 1 && AllBalanced(regions)
    ensures Assemble(opens, regions) == s
  {
    if s == [] {
      opens, regions := [], [[]];
      assert WellFormed(Done) && Print(Done) == [];
    } else {
      opens, regions := Regions(s[..|s| - 1]);
      opens, regions := RegionsStep(opens, regions, OpenStack(s[..|s| - 1]).value, s[|s| - 1]);
    }
  }

  /** The stack machine decides the grammar. */
  lemma ClosedIffBalanced(s: string)
    ensures Closed(s) <==> Balanced(s)
  {
    if Closed(s) {
      var opens, regions := Regions(s);
    }
    if Balanced(s) {
      var w :| WellFormed(w) && Print(w) == s;
      PrintedIsClosed(w);
    }
  }

  /** Cutting a balanced word at a non-bracket whose prefix is balanced gives two balanced words. */
  lemma CutBalanced(s: string, p: nat)
    requires p < |s| && Closed(s) && Closed(s[..p]) && !IsBracket(s[p])
    ensures Closed(s[p + 1..])
  {
    OpenStackSnoc(s[..p], s[p]);
    assert s == (s[..p] + [s[p]]) + s[p + 1..];
    OpenStackAfterClosed(s[..p] + [s[p]], s[p + 1..]);
  }

  lemma {:induction false} SpaceIsClosed(s: string)
    requires AllSpace(s)
    ensures Closed(s)
  {
    if s != [] {
      SpaceIsClosed(s[..|s| - 1]);
    }
  }

  lemma ClosedTail(t: string, after: string)
    requires Closed(after)
    ensures Closed(t + after) <==> Closed(t)
  {
    if Closed(t) {
      OpenStackAfterClosed(t, after);
    }
    if Closed(t + after) {
      OpenStackPrefix(t + after, |t|);
      assert (t + after)[..|t|] == t;
      OpenStackConcat(t, after);
      assert OpenStack(t).value + [] == OpenStack(t).value;
    }
  }

  /** Surrounding white space changes nothing. */
  lemma StripKeepsBalance(s: string)
    ensures Closed(Strip(s)) <==> Closed(s)
  {
    var before, after := StripShape(s);
    SpaceIsClosed(before);
    SpaceIsClosed(after);
    var t := Strip(s);
    OpenStackAfterClosed(before, t + after);
    assert before + (t + after) == s;
    ClosedTail(t, after);
  }
}
