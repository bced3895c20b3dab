/** Cutting a balanced text at its own delimiters: split_by_delim of processors/materials/parser.py,
    and why it is the inverse of joining. */
module MaterialCut {
  import opened Text
  import opened BracketWords
  import opened MaterialBlocks

  /** Strictly increasing positions inside a text of length n. */
  ghost predicate Positions(idx: seq<int>, n: nat) {
    && (forall k :: 0 <= k < |idx| ==> 0 <= idx[k] < n)
    && (forall j, k :: 0 <= j < k < |idx| ==> idx[j] < idx[k])
  }

  function From(idx: seq<int>, k: nat): int
    requires k <= |idx|
  {
    if k == 0 then 0 else idx[k - 1] + 1
  }

  function To(idx: seq<int>, n: nat, k: nat): int
    requires k <= |idx|
  {
    if k == |idx| then n else idx[k]
  }

  lemma CutInRange(idx: seq<int>, n: nat, k: nat)
    requires Positions(idx, n) && k <= |idx|
    ensures 0 <= From(idx, k) <= To(idx, n, k) <= n
  {
    assert 0 < k < |idx| ==> idx[k - 1] < idx[k];
  }

  /** The texts between the positions. */
  function Cut(text: string, idx: seq<int>): (parts: seq<string>)
    requires Positions(idx, |text|)
    ensures |parts| == |idx| + 1
  {
    seq(|idx| + 1, k requires 0 <= k <= |idx| =>
      (CutInRange(idx, |text|, k); text[From(idx, k)..To(idx, |text|, k)]))
  }

  lemma {:induction false} JoinCut(text: string, idx: seq<int>, d: char, k: nat)
    requires Positions(idx, |text|) && k <= |idx|
    requires forall j :: 0 <= j < |idx| ==> text[idx[j]] == d
    ensures Join(Cut(text, idx)[..k + 1], d) == text[..To(idx, |text|, k)]
  {
    var parts := Cut(text, idx);
    CutInRange(idx, |text|, k);
    if k == 0 {
      assert parts[..1] == [parts[0]];
    } else {
      JoinCut(text, idx, d, k - 1);
      assert parts[..k + 1] == parts[..k] + [parts[k]];
      JoinSnoc(parts[..k], parts[k], d);
      var p := idx[k - 1];
      assert text[..p] + [d] + text[p + 1..To(idx, |text|, k)] == text[..To(idx, |text|, k)];
    }
  }

  /** The delimiters of the text itself, not of a bracket group in it. */
  function TopsOf(text: string, d: char): seq<int> { Tops(text, 0, |text|, d) }

  function Pieces(text: string, d: char): (parts: seq<string>)
  {
    TopsMeaning(text, 0, |text|, d);
    Cut(text, TopsOf(text, d))
  }

  lemma TopsOfMeaning(text: string, d: char)
    ensures Positions(TopsOf(text, d), |text|)
    ensures forall p: nat :: p in TopsOf(text, d) <==> p < |text| && text[p] == d && Closed(text[..p])
  {
    TopsMeaning(text, 0, |text|, d);
    assert forall p: nat :: p < |text| ==> text[0..p] == text[..p];
  }

  /** What one part is: balanced, and without a delimiter of its own. */
  ghost predicate Atomic(part: string, d: char) {
    Closed(part) && TopsOf(part, d) == []
  }

  lemma BoundariesClosed(text: string, d: char, k: nat)
    requires Closed(text) && !IsBracket(d) && k <= |TopsOf(text, d)|
    ensures Positions(TopsOf(text, d), |text|)
    ensures 0 <= From(TopsOf(text, d), k) <= To(TopsOf(text, d), |text|, k) <= |text|
    ensures Closed(text[..From(TopsOf(text, d), k)]) && Closed(text[..To(TopsOf(text, d), |text|, k)])
  {
    var idx := TopsOf(text, d);
    TopsOfMeaning(text, d);
    CutInRange(idx, |text|, k);
    if k < |idx| {
      assert idx[k] in idx;
    } else {
      assert text[..|text|] == text;
    }
    if k > 0 {
      var p := idx[k - 1];
      assert p in idx;
      OpenStackSnoc(text[..p], text[p]);
      assert text[..p] + [text[p]] == text[..p + 1];
    }
  }

  lemma PieceFree(text: string, d: char, k: nat)
    requires Closed(text) && !IsBracket(d) && k <= |TopsOf(text, d)|
    requires 0 <= From(TopsOf(text, d), k) <= To(TopsOf(text, d), |text|, k) <= |text|
    ensures TopsOf(text[From(TopsOf(text, d), k)..To(TopsOf(text, d), |text|, k)], d) == []
  {
    var part := text[From(TopsOf(text, d), k)..To(TopsOf(text, d), |text|, k)];
    TopsOfMeaning(part, d);
    if TopsOf(part, d) != [] {
      NoneBetween(text, d, k, TopsOf(part, d)[0]);
    }
  }

  lemma PieceAtomic(text: string, d: char, k: nat)
    requires Closed(text) && !IsBracket(d) && k <= |TopsOf(text, d)|
    ensures k < |Pieces(text, d)| && Atomic(Pieces(text, d)[k], d)
  {
    var idx := TopsOf(text, d);
    BoundariesClosed(text, d, k);
    var from, to := From(idx, k), To(idx, |text|, k);
    var part := text[from..to];
    OpenStackAfterClosed(text[..from], part);
    assert text[..from] + part == text[..to];
    PieceFree(text, d, k);
  }

  lemma NotBetween(idx: seq<int>, n: nat, k: nat, p: int)
    requires Positions(idx, n) && k <= |idx| && From(idx, k) <= p < To(idx, n, k)
    ensures p !in idx
  {
  }

  lemma NoneBetween(text: string, d: char, k: nat, q: nat)
    requires Closed(text) && !IsBracket(d) && k <= |TopsOf(text, d)|
    requires From(TopsOf(text, d), k) >= 0
    requires From(TopsOf(text, d), k) + q < To(TopsOf(text, d), |text|, k) <= |text|
    ensures var from := From(TopsOf(text, d), k);
            !(text[from + q] == d && Closed(text[from..To(TopsOf(text, d), |text|, k)][..q]))
  {
    var idx := TopsOf(text, d);
    BoundariesClosed(text, d, k);
    TopsOfMeaning(text, d);
    var from, to := From(idx, k), To(idx, |text|, k);
    NotBetween(idx, |text|, k, from + q);
    var before := text[from..to][..q];
    OpenStackAfterClosed(text[..from], before);
    assert text[..from] + before == text[..from + q];
  }

  /** Splitting: one part more than delimiters, each balanced and free of the delimiter at its own
      level, and joining them gives the text back. */
  lemma PiecesMeaning(text: string, d: char)
    requires Closed(text) && !IsBracket(d)
    ensures |Pieces(text, d)| == |TopsOf(text, d)| + 1
    ensures Join(Pieces(text, d), d) == text
    ensures forall k :: 0 <= k < |Pieces(text, d)| ==> Atomic(Pieces(text, d)[k], d)
  {
    var idx := TopsOf(text, d);
    TopsOfMeaning(text, d);
    forall j | 0 <= j < |idx|
      ensures text[idx[j]] == d
    {
      assert idx[j] in idx;
    }
    JoinCut(text, idx, d, |idx|);
    assert Pieces(text, d)[..|idx| + 1] == Pieces(text, d);
    assert text[..|text|] == text;
    forall k | 0 <= k < |Pieces(text, d)|
      ensures Atomic(Pieces(text, d)[k], d)
    {
      PieceAtomic(text, d, k);
    }
  }

  ghost function Shift(idx: seq<int>, offset: int): seq<int> {
    seq(|idx|, k requires 0 <= k < |idx| => idx[k] + offset)
  }

  /** The delimiters of u + v, for a balanced u, are those of u and then those of v. */
  lemma {:induction false} TopsConcat(u: string, v: string, d: char)
    requires Closed(u)
    ensures TopsOf(u + v, d) == TopsOf(u, d) + Shift(TopsOf(v, d), |u|)
  {
    if v == [] {
      assert u + v == u;
      assert Shift(TopsOf(v, d), |u|) == [];
    } else {
      var v', c := v[..|v| - 1], v[|v| - 1];
      TopsConcat(u, v', d);
      TopsSnoc(v', c, d);
      TopsSnoc(u + v', c, d);
      assert v == v' + [c] && u + v == (u + v') + [c];
      OpenStackAfterClosed(u, v');
    }
  }

  lemma {:induction false} TopsExtend(s: string, c: char, n: nat, d: char)
    requires n <= |s|
    ensures Tops(s + [c], 0, n, d) == Tops(s, 0, n, d)
  {
    if n > 0 {
      TopsExtend(s, c, n - 1, d);
      assert (s + [c])[0..n - 1] == s[0..n - 1];
    }
  }

  lemma TopsSnoc(s: string, c: char, d: char)
    ensures TopsOf(s + [c], d) == TopsOf(s, d) + (if c == d && Closed(s) then [|s|] else [])
  {
    TopsExtend(s, c, |s|, d);
    assert (s + [c])[0..|s|] == s;
  }

  lemma CutAfterFirstAt(u: string, d: char, v: string, tail: seq<int>, k: nat)
    requires Positions(tail, |v|) && k <= |tail|
    requires Positions([|u|] + Shift(tail, |u| + 1), |u| + 1 + |v|)
    ensures Cut(u + [d] + v, [|u|] + Shift(tail, |u| + 1))[k + 1] == Cut(v, tail)[k]
  {
    var text, idx := u + [d] + v, [|u|] + Shift(tail, |u| + 1);
    CutInRange(idx, |text|, k + 1);
    CutInRange(tail, |v|, k);
    var from, to := From(tail, k), To(tail, |v|, k);
    assert From(idx, k + 1) == from + |u| + 1 && To(idx, |text|, k + 1) == to + |u| + 1;
    assert text[from + |u| + 1..to + |u| + 1] == v[from..to];
  }

  lemma CutAfterFirst(u: string, d: char, v: string, tail: seq<int>)
    requires Positions(tail, |v|)
    requires Positions([|u|] + Shift(tail, |u| + 1), |u| + 1 + |v|)
    ensures Cut(u + [d] + v, [|u|] + Shift(tail, |u| + 1)) == [u] + Cut(v, tail)
  {
    var text, idx := u + [d] + v, [|u|] + Shift(tail, |u| + 1);
    assert text[0..|u|] == u;
    forall k | 0 <= k <= |tail|
      ensures Cut(text, idx)[k + 1] == Cut(v, tail)[k]
    {
      CutAfterFirstAt(u, d, v, tail, k);
    }
  }

  lemma TopsAfterFirst(u: string, d: char, v: string)
    requires Atomic(u, d) && !IsBracket(d) && Closed(v)
    ensures Closed((u + [d]) + v) && TopsOf((u + [d]) + v, d) == [|u|] + Shift(TopsOf(v, d), |u| + 1)
  {
    OpenStackSnoc(u, d);
    OpenStackAfterClosed(u + [d], v);
    TopsSnoc(u, d, d);
    TopsConcat(u + [d], v, d);
  }

  lemma OnePart(text: string, d: char)
    requires TopsOf(text, d) == []
    ensures Pieces(text, d) == [text]
  {
    TopsOfMeaning(text, d);
    assert text[0..|text|] == text;
  }

  lemma OnePartMore(u: string, d: char, v: string)
    requires Atomic(u, d) && !IsBracket(d) && Closed(v)
    ensures Closed((u + [d]) + v) && Pieces((u + [d]) + v, d) == [u] + Pieces(v, d)
  {
    TopsAfterFirst(u, d, v);
    TopsOfMeaning((u + [d]) + v, d);
    TopsOfMeaning(v, d);
    CutAfterFirst(u, d, v, TopsOf(v, d));
  }

  /** Joining then splitting: any parts that are balanced and free of the delimiter come back as they
      were, so the split is the only one there is. */
  lemma {:induction false} SplitJoin(parts: seq<string>, d: char)
    requires |parts| > 0 && !IsBracket(d)
    requires forall k :: 0 <= k < |parts| ==> Atomic(parts[k], d)
    ensures Closed(Join(parts, d)) && Pieces(Join(parts, d), d) == parts
  {
    if |parts| == 1 {
      OnePart(parts[0], d);
    } else {
      SplitJoin(parts[1..], d);
      OnePartMore(parts[0], d, Join(parts[1..], d));
      assert parts == [parts[0]] + parts[1..];
    }
  }

  /** A block's absolute positions are those of its text, moved by the block's start. */
  lemma {:induction false} TopsOfSlice(line: string, a: nat, e: nat, d: char)
    requires a <= e <= |line|
    ensures Tops(line, a, e, d) == Shift(TopsOf(line[a..e], d), a)
    decreases e - a
  {
    if a < e {
      TopsOfSlice(line, a, e - 1, d);
      var t, c := line[a..e - 1], line[e - 1];
      assert line[a..e] == t + [c];
      TopsSnoc(t, c, d);
      ShiftSnoc(TopsOf(t, d), |t|, a);
    } else {
      assert line[a..e] == [];
    }
  }

  lemma ShiftSnoc(idx: seq<int>, i: int, offset: int)
    ensures Shift(idx + [i], offset) == Shift(idx, offset) + [i + offset]
    ensures Shift(idx + [], offset) == Shift(idx, offset) + []
  {
  }
}
