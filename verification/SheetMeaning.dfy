/** Which sheets _parse_sheet accepts and what it reads from them, said of the grid alone
    (processors/table/table_processer.py). */
module SheetMeaning {
  import opened SheetLists
  import opened SheetParser
  import opened SheetOrder

  // ---------- the types of one header row ----------

  /** The header types of a variant, in the order in which they are merged. */
  function Select(variant: seq<CellType>, k: nat): seq<CellType>
    requires k <= |HEADER_TYPES|
  {
    if k == 0 then []
    else Select(variant, k - 1) + if HEADER_TYPES[k - 1] in variant then [HEADER_TYPES[k - 1]] else []
  }

  function CountOf(list: seq<Cell>, r: int, t: CellType): nat { |OfType(OfRow(list, r), t)| }

  function Once(variant: seq<CellType>, t: CellType): nat { if t in variant then 1 else 0 }

  ghost predicate CountsAre(list: seq<Cell>, r: int, variant: seq<CellType>, k: nat)
    requires k <= |HEADER_TYPES|
  {
    forall i :: 0 <= i < k ==> CountOf(list, r, HEADER_TYPES[i]) == Once(variant, HEADER_TYPES[i])
  }

  lemma TypesOfType(cells: seq<Cell>, t: CellType)
    ensures |Types(OfType(cells, t))| == |OfType(cells, t)|
    ensures forall k :: 0 <= k < |OfType(cells, t)| ==> Types(OfType(cells, t))[k] == t
  {
    OfTypeMeaning(cells, t);
    forall k | 0 <= k < |OfType(cells, t)|
      ensures Types(OfType(cells, t))[k] == t
    {
      assert OfType(cells, t)[k] in OfType(cells, t);
    }
  }

  lemma OnceOrNever(cells: seq<Cell>, t: CellType, variant: seq<CellType>)
    requires |OfType(cells, t)| == Once(variant, t)
    ensures Types(OfType(cells, t)) == if t in variant then [t] else []
  {
    TypesOfType(cells, t);
  }

  lemma HeaderTypesStep(list: seq<Cell>, r: int, k: nat)
    requires k < |HEADER_TYPES|
    ensures Types(OfRow(Headers(list, k + 1), r))
            == Types(OfRow(Headers(list, k), r)) + Types(OfType(OfRow(list, r), HEADER_TYPES[k]))
  {
    OfRowConcat(Headers(list, k), OfType(list, HEADER_TYPES[k]), r);
    RowTypeSwap(list, r, HEADER_TYPES[k]);
  }

  lemma NextSelected(list: seq<Cell>, r: int, variant: seq<CellType>, k: nat)
    requires k < |HEADER_TYPES| && CountOf(list, r, HEADER_TYPES[k]) == Once(variant, HEADER_TYPES[k])
    ensures Types(OfRow(Headers(list, k + 1), r))
            == Types(OfRow(Headers(list, k), r)) + if HEADER_TYPES[k] in variant then [HEADER_TYPES[k]] else []
  {
    HeaderTypesStep(list, r, k);
    OnceOrNever(OfRow(list, r), HEADER_TYPES[k], variant);
  }

  lemma {:induction false} SelectedTypes(list: seq<Cell>, r: int, variant: seq<CellType>, k: nat)
    requires k <= |HEADER_TYPES| && CountsAre(list, r, variant, k)
    ensures Types(OfRow(Headers(list, k), r)) == Select(variant, k)
  {
    if k > 0 {
      SelectedTypes(list, r, variant, k - 1);
      NextSelected(list, r, variant, k - 1);
    }
  }

  lemma {:induction false} AllSame(s: seq<CellType>, t: CellType, u: CellType)
    requires forall k :: 0 <= k < |s| ==> s[k] == t
    ensures multiset(s)[u] == if u == t then |s| else 0
  {
    if s != [] {
      AllSame(s[..|s| - 1], t, u);
      assert s == s[..|s| - 1] + [t];
    }
  }

  lemma NextCount(list: seq<Cell>, r: int, k: nat, t: CellType)
    requires k < |HEADER_TYPES|
    ensures multiset(Types(OfRow(Headers(list, k + 1), r)))[t]
            == multiset(Types(OfRow(Headers(list, k), r)))[t] + if t == HEADER_TYPES[k] then CountOf(list, r, t) else 0
  {
    HeaderTypesStep(list, r, k);
    PartCount(OfRow(list, r), HEADER_TYPES[k], t);
    CountConcat(Types(OfRow(Headers(list, k), r)), Types(OfType(OfRow(list, r), HEADER_TYPES[k])), t);
  }

  lemma {:induction false} HeaderCounts(list: seq<Cell>, r: int, k: nat, t: CellType)
    requires k <= |HEADER_TYPES|
    ensures multiset(Types(OfRow(Headers(list, k), r)))[t] == if Rank(t) < k then CountOf(list, r, t) else 0
  {
    if k > 0 {
      HeaderCounts(list, r, k - 1, t);
      NextCount(list, r, k - 1, t);
      RankOf(k - 1);
      if Rank(t) == k - 1 {
        RankDecides(t, HEADER_TYPES[k - 1]);
      }
    }
  }

  lemma PartCount(cells: seq<Cell>, t: CellType, u: CellType)
    ensures multiset(Types(OfType(cells, t)))[u] == if u == t then |OfType(cells, t)| else 0
  {
    TypesOfType(cells, t);
    AllSame(Types(OfType(cells, t)), t, u);
  }

  lemma CountConcat(a: seq<CellType>, b: seq<CellType>, t: CellType)
    ensures multiset(a + b)[t] == multiset(a)[t] + multiset(b)[t]
  {
  }

  /** The place of a header type in the merge order. */
  function Rank(t: CellType): nat {
    match t
    case MatH => 0
    case WidthH => 1
    case HeightH => 2
    case LengthH => 3
    case AmountH => 4
    case BarcodeH => 5
    case MarkingH => 6
    case _ => 7
  }

  lemma RankOf(i: nat)
    requires i < |HEADER_TYPES|
    ensures Rank(HEADER_TYPES[i]) == i
  {
  }

  lemma RankDecides(t: CellType, u: CellType)
    requires Rank(t) == Rank(u) < 7
    ensures t == u
  {
  }

  lemma {:induction false} SelectAscends(variant: seq<CellType>, k: nat)
    requires k <= |HEADER_TYPES|
    ensures forall j :: 0 <= j < |Select(variant, k)| ==> Rank(Select(variant, k)[j]) < k
    ensures forall i, j :: 0 <= i < j < |Select(variant, k)| ==>
              Rank(Select(variant, k)[i]) < Rank(Select(variant, k)[j])
  {
    if k > 0 {
      SelectAscends(variant, k - 1);
      RankOf(k - 1);
    }
  }

  lemma {:induction false} DistinctCount(variant: seq<CellType>, t: CellType)
    requires Distinct(variant)
    ensures multiset(variant)[t] == Once(variant, t)
  {
    if variant != [] {
      DistinctCount(variant[1..], t);
      assert variant == [variant[0]] + variant[1..];
    }
  }

  /** A header row matches a variant when the variant lists its types in merge order and the row has exactly
      one header cell of each of those types and none of any other. */
  lemma MatchMeaning(list: seq<Cell>, r: int, variant: seq<CellType>)
    requires Distinct(variant)
    ensures RowMatches(HeaderCells(list), r, variant) <==>
            variant == Select(variant, |HEADER_TYPES|) && CountsAre(list, r, variant, |HEADER_TYPES|)
  {
    if RowMatches(HeaderCells(list), r, variant) {
      forall i | 0 <= i < |HEADER_TYPES|
        ensures CountOf(list, r, HEADER_TYPES[i]) == Once(variant, HEADER_TYPES[i])
      {
        RankOf(i);
        HeaderCounts(list, r, |HEADER_TYPES|, HEADER_TYPES[i]);
        DistinctCount(variant, HEADER_TYPES[i]);
      }
      SelectedTypes(list, r, variant, |HEADER_TYPES|);
    } else if CountsAre(list, r, variant, |HEADER_TYPES|) {
      SelectedTypes(list, r, variant, |HEADER_TYPES|);
    }
  }

  ghost predicate Ascends(variant: seq<CellType>) {
    forall i, j :: 0 <= i < j < |variant| ==> Rank(variant[i]) < Rank(variant[j])
  }

  lemma {:induction false} SelectMembers(variant: seq<CellType>, k: nat)
    requires k <= |HEADER_TYPES|
    ensures forall t :: t in Select(variant, k) <==> t in variant && Rank(t) < k
  {
    if k > 0 {
      SelectMembers(variant, k - 1);
      RankOf(k - 1);
      forall t | Rank(t) == k - 1
        ensures t == HEADER_TYPES[k - 1]
      {
      }
    }
  }

  lemma HasMember(s: seq<CellType>)
    ensures s != [] ==> exists t :: t in s
  {
    assert s != [] ==> s[0] in s;
  }

  /** The last of an ascending list is its member of highest rank. */
  lemma LastIsTop(a: seq<CellType>, t: CellType)
    requires Ascends(a) && t in a
    ensures Rank(t) <= Rank(a[|a| - 1])
    ensures t in a[..|a| - 1] <==> t != a[|a| - 1]
  {
    assert a == a[..|a| - 1] + [a[|a| - 1]];
    var k :| 0 <= k < |a| && a[k] == t;
  }

  lemma SameFront(a: seq<CellType>, b: seq<CellType>)
    requires Ascends(a) && Ascends(b) && forall t :: t in a <==> t in b
    requires a != [] && b != [] && a[|a| - 1] == b[|b| - 1]
    ensures var a', b' := a[..|a| - 1], b[..|b| - 1];
            forall t :: t in a' <==> t in b'
  {
    var a', b' := a[..|a| - 1], b[..|b| - 1];
    forall t
      ensures t in a' <==> t in b'
    {
      if t in a {
        LastIsTop(a, t);
        LastIsTop(b, t);
      }
    }
  }

  lemma SameLast(a: seq<CellType>, b: seq<CellType>)
    requires Ascends(a) && Ascends(b) && forall t :: t in a <==> t in b
    requires a != [] && b != [] && Rank(a[|a| - 1]) < 7
    ensures a[|a| - 1] == b[|b| - 1]
  {
    assert a[|a| - 1] in a && b[|b| - 1] in b;
    LastIsTop(b, a[|a| - 1]);
    LastIsTop(a, b[|b| - 1]);
    RankDecides(a[|a| - 1], b[|b| - 1]);
  }

  lemma {:induction false} AscendingSame(a: seq<CellType>, b: seq<CellType>)
    requires Ascends(a) && Ascends(b) && forall t :: t in a <==> t in b
    requires forall k :: 0 <= k < |a| ==> Rank(a[k]) < 7
    ensures a == b
  {
    HasMember(a);
    HasMember(b);
    if a != [] && b != [] {
      SameLast(a, b);
      SameFront(a, b);
      AscendingSame(a[..|a| - 1], b[..|b| - 1]);
      assert a == a[..|a| - 1] + [a[|a| - 1]] && b == b[..|b| - 1] + [b[|b| - 1]];
    }
  }

  lemma VariantTypes(variant: seq<CellType>)
    requires variant in VARIANTS
    ensures MatH in variant && AmountH in variant
    ensures forall t :: t in variant ==> Rank(t) < 7
  {
  }

  lemma SelectsItself(variant: seq<CellType>)
    requires variant in VARIANTS
    ensures variant == Select(variant, |HEADER_TYPES|) <==> Ascends(variant)
  {
    VariantTypes(variant);
    SelectAscends(variant, |HEADER_TYPES|);
    SelectMembers(variant, |HEADER_TYPES|);
    if Ascends(variant) {
      AscendingSame(variant, Select(variant, |HEADER_TYPES|));
    }
  }

  /** MatchMeaning for the variants of the source. */
  lemma VariantMatch(list: seq<Cell>, r: int, variant: seq<CellType>)
    requires variant in VARIANTS
    ensures RowMatches(HeaderCells(list), r, variant) <==>
              Ascends(variant) && CountsAre(list, r, variant, |HEADER_TYPES|)
  {
    VariantsDistinct(variant);
    MatchMeaning(list, r, variant);
    SelectsItself(variant);
  }

  /** A variant whose columns are not in merge order matches no sheet. */
  lemma DeadVariants(list: seq<Cell>, variant: seq<CellType>)
    requires variant in VARIANTS && HeaderCells(list) != [] && AllMatch(HeaderCells(list), variant)
    ensures Ascends(variant)
  {
    var r := RowOrder(HeaderCells(list))[0];
    RowOrderNonEmpty(HeaderCells(list));
    assert RowMatches(HeaderCells(list), r, variant);
    VariantMatch(list, r, variant);
  }

  lemma WhichAreDead(n: nat)
    requires n < |VARIANTS|
    ensures Ascends(VARIANTS[n]) <==> n in {0, 2, 6, 7, 8, 9, 12, 13}
  {
    var v := VARIANTS[n];
    if n == 1 || n == 3 {
      assert Rank(v[4]) > Rank(v[5]);
    } else if n in {4, 5, 10, 11, 14} {
      assert Rank(v[1]) > Rank(v[2]);
    }
  }
}
