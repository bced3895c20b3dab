/** decodeQuotedPrintable of mail/internal/parser/email.go, against section 6.7 of RFC 2045. */
module QuotedPrintable {
  import opened Text
  import opened Base64

  const EQUALS: Byte := 61
  const CR: Byte := 13
  const LF: Byte := 10
  const UNDERSCORE: Byte := 95

  function HexDigit(c: Byte): (v: Option<int>)
    ensures v.Some? ==> 0 <= v.value < 16
  {
    if 48 <= c <= 57 then Some(c - 48)
    else if 65 <= c <= 70 then Some(c - 55)
    else if 97 <= c <= 102 then Some(c - 87)
    else None
  }

  /** strconv.ParseUint("0x" + the two bytes, 0, 8): with base 0 an underscore may follow the prefix. */
  function HexPair(a: Byte, b: Byte): Option<Byte> {
    if HexDigit(b).None? then None
    else if HexDigit(a).Some? then Some(HexDigit(a).value * 16 + HexDigit(b).value)
    else if a == UNDERSCORE then Some(HexDigit(b).value)
    else None
  }

  predicate SoftBreakAt(s: seq<Byte>, i: nat) {
    i + 2 < |s| && s[i] == EQUALS && s[i + 1] == CR && s[i + 2] == LF
  }

  predicate EscapeAt(s: seq<Byte>, i: nat) {
    i + 2 < |s| && s[i] == EQUALS && HexPair(s[i + 1], s[i + 2]).Some?
  }

  /** The rest of the input, decoded. */
  function Decoded(s: seq<Byte>): seq<Byte> {
    if s == [] then []
    else if SoftBreakAt(s, 0) then Decoded(s[3..])
    else if EscapeAt(s, 0) then [HexPair(s[1], s[2]).value] + Decoded(s[3..])
    else [s[0]] + Decoded(s[1..])
  }

  /** What one turn of the loop adds to `done`, and how far it moves. */
  lemma DecodedStep(s: seq<Byte>, i: nat, done: seq<Byte>)
    requires i < |s|
    ensures SoftBreakAt(s, i) ==> done + Decoded(s[i..]) == done + Decoded(s[i + 3..])
    ensures EscapeAt(s, i) ==>
              done + Decoded(s[i..]) == done + [HexPair(s[i + 1], s[i + 2]).value] + Decoded(s[i + 3..])
    ensures !SoftBreakAt(s, i) && !EscapeAt(s, i) ==> done + Decoded(s[i..]) == done + [s[i]] + Decoded(s[i + 1..])
  {
    var t := s[i..];
    assert SoftBreakAt(t, 0) == SoftBreakAt(s, i) && EscapeAt(t, 0) == EscapeAt(s, i);
    if i + 2 < |s| {
      assert t[3..] == s[i + 3..];
    }
    assert t[1..] == s[i + 1..];
  }

  method DecodeQuotedPrintable(s: seq<Byte>) returns (result: seq<Byte>)
    ensures result == Decoded(s)
  {
    result := [];
    var i := 0;
    while i < |s|
      invariant 0 <= i <= |s|
      invariant result + Decoded(s[i..]) == Decoded(s)
    {
      DecodedStep(s, i, result);
      if s[i] == EQUALS && i + 2 < |s| {
        if s[i + 1] == CR && s[i + 2] == LF {
          i := i + 3;
          continue;
        }
        var v := HexPair(s[i + 1], s[i + 2]);
        if v.Some? {
          result := result + [v.value];
          i := i + 3;
          continue;
        }
      }
      result := result + [s[i]];
      i := i + 1;
    }
  }

  lemma {:induction false} NeverLonger(s: seq<Byte>)
    ensures |Decoded(s)| <= |s|
  {
    if s == [] {
    } else if SoftBreakAt(s, 0) || EscapeAt(s, 0) {
      NeverLonger(s[3..]);
    } else {
      NeverLonger(s[1..]);
    }
  }

  // ---------- encoders ----------

  /** One step of an encoder: a byte written as it is, a byte written as '=' and two hexadecimal digits
      (in upper or lower case), or a soft line break. */
  datatype Piece =
    | Literal(c: Byte)
    | Escaped(high: Byte, low: Byte)
    | SoftBreak

  predicate Allowed(p: Piece) {
    match p
    case Literal(c) => c != EQUALS
    case Escaped(high, low) => HexDigit(high).Some? && HexDigit(low).Some?
    case SoftBreak => true
  }

  function Written(p: Piece): seq<Byte> {
    match p
    case Literal(c) => [c]
    case Escaped(high, low) => [EQUALS, high, low]
    case SoftBreak => [EQUALS, CR, LF]
  }

  function Meant(p: Piece): seq<Byte>
    requires Allowed(p)
  {
    match p
    case Literal(c) => [c]
    case Escaped(high, low) => [HexDigit(high).value * 16 + HexDigit(low).value]
    case SoftBreak => []
  }

  function Output(pieces: seq<Piece>): seq<Byte> {
    if pieces == [] then [] else Written(pieces[0]) + Output(pieces[1..])
  }

  function Input(pieces: seq<Piece>): seq<Byte>
    requires forall p :: p in pieces ==> Allowed(p)
  {
    if pieces == [] then [] else Meant(pieces[0]) + Input(pieces[1..])
  }

  lemma PieceDecoded(p: Piece, rest: seq<Byte>)
    requires Allowed(p)
    ensures Decoded(Written(p) + rest) == Meant(p) + Decoded(rest)
  {
    var s := Written(p) + rest;
    match p
    case Literal(c) =>
      assert s[1..] == rest;
    case Escaped(high, low) =>
      assert s[3..] == rest;
    case SoftBreak =>
      assert s[3..] == rest;
  }

  /** Whatever an encoder chose to escape and wherever it broke lines, the very end included, decoding
      gives back what it was given. */
  lemma {:induction false} DecodesEveryEncoder(pieces: seq<Piece>)
    requires forall p :: p in pieces ==> Allowed(p)
    ensures Decoded(Output(pieces)) == Input(pieces)
  {
    if pieces != [] {
      DecodesEveryEncoder(pieces[1..]);
      PieceDecoded(pieces[0], Output(pieces[1..]));
    }
  }

  function HexOf(v: int): Byte
    requires 0 <= v < 16
  {
    if v < 10 then 48 + v else 55 + v
  }

  function Break(broken: bool): seq<Piece> { if broken then [SoftBreak] else [] }

  function PieceOf(c: Byte, escape: bool): Piece {
    if escape || c == EQUALS then Escaped(HexOf(c / 16), HexOf(c % 16)) else Literal(c)
  }

  lemma PieceMeans(c: Byte, escape: bool)
    ensures Allowed(PieceOf(c, escape)) && Meant(PieceOf(c, escape)) == [c]
  {
  }

  /** The encoder that escapes '=' and the bytes chosen by `escape`, and breaks lines before the positions
      chosen by `breaks`, the end being the last of them. */
  function Pieces(data: seq<Byte>, escape: seq<bool>, breaks: seq<bool>): seq<Piece>
    requires |escape| == |data| && |breaks| == |data| + 1
  {
    Break(breaks[0])
    + if data == [] then []
      else [PieceOf(data[0], escape[0])] + Pieces(data[1..], escape[1..], breaks[1..])
  }

  lemma {:induction false} PiecesMean(data: seq<Byte>, escape: seq<bool>, breaks: seq<bool>)
    requires |escape| == |data| && |breaks| == |data| + 1
    ensures forall p :: p in Pieces(data, escape, breaks) ==> Allowed(p)
    ensures Input(Pieces(data, escape, breaks)) == data
  {
    var after: seq<Piece> := [];
    if data != [] {
      PiecesMean(data[1..], escape[1..], breaks[1..]);
      var rest := Pieces(data[1..], escape[1..], breaks[1..]);
      PieceMeans(data[0], escape[0]);
      after := [PieceOf(data[0], escape[0])] + rest;
      assert after[1..] == rest;
      assert Input(after) == [data[0]] + data[1..] == data;
    }
    BreakMeansNothing(after, breaks[0]);
    assert Pieces(data, escape, breaks) == Break(breaks[0]) + after;
  }

  lemma BreakMeansNothing(pieces: seq<Piece>, broken: bool)
    requires forall p :: p in pieces ==> Allowed(p)
    ensures forall p :: p in Break(broken) + pieces ==> Allowed(p)
    ensures Input(Break(broken) + pieces) == Input(pieces)
  {
    if broken {
      assert ([SoftBreak] + pieces)[1..] == pieces;
    } else {
      assert [] + pieces == pieces;
    }
  }

  /** Decoding inverts that encoder, whatever was chosen. */
  lemma EncoderInverted(data: seq<Byte>, escape: seq<bool>, breaks: seq<bool>)
    requires |escape| == |data| && |breaks| == |data| + 1
    ensures Decoded(Output(Pieces(data, escape, breaks))) == data
  {
    PiecesMean(data, escape, breaks);
    DecodesEveryEncoder(Pieces(data, escape, breaks));
  }

  /** Nothing is changed exactly when there is neither a soft break nor an escape to undo. */
  lemma {:induction false} UnchangedIff(s: seq<Byte>)
    ensures Decoded(s) == s <==> forall i :: 0 <= i < |s| ==> !SoftBreakAt(s, i) && !EscapeAt(s, i)
  {
    if s == [] {
    } else if SoftBreakAt(s, 0) || EscapeAt(s, 0) {
      NeverLonger(s[3..]);
    } else {
      UnchangedIff(s[1..]);
      assert forall i :: 0 <= i < |s| - 1 ==>
               SoftBreakAt(s[1..], i) == SoftBreakAt(s, i + 1) && EscapeAt(s[1..], i) == EscapeAt(s, i + 1);
      if forall i :: 0 <= i < |s| - 1 ==> !SoftBreakAt(s[1..], i) && !EscapeAt(s[1..], i) {
        forall i | 0 < i < |s|
          ensures !SoftBreakAt(s, i) && !EscapeAt(s, i)
        {
          assert SoftBreakAt(s[1..], i - 1) == SoftBreakAt(s, i);
          assert EscapeAt(s[1..], i - 1) == EscapeAt(s, i);
        }
      }
    }
  }
}
