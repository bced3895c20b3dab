/** The line-ending rewrite of mail/internal/smtp/client.go and the lines it keeps (section 2.3 of RFC 5322).
    A char stands for a byte. */
module LineEndings {

  const CRLF: string := "\r\n"

  /** strings.ReplaceAll, for a pattern that is not empty. */
  function ReplaceAll(s: string, was: string, now: string): string
    requires was != ""
  {
    if |s| < |was| then s
    else if was <= s then now + ReplaceAll(s[|was|..], was, now)
    else [s[0]] + ReplaceAll(s[1..], was, now)
  }

  /** The three passes. */
  function Normalized(body: string): string {
    ReplaceAll(ReplaceAll(ReplaceAll(body, "\r\n", "\n"), "\r", "\n"), "\n", "\r\n")
  }

  // ---------- lines ----------

  predicate Plain(c: char) { c != '\r' && c != '\n' }

  predicate IsLine(s: string) { forall k :: 0 <= k < |s| ==> Plain(s[k]) }

  ghost predicate AreLines(lines: seq<string>) { forall k :: 0 <= k < |lines| ==> IsLine(lines[k]) }

  /** The lines of a text in which CR LF, CR and LF all end a line. Never empty. */
  function Lines(s: string): (lines: seq<string>)
    ensures lines != []
  {
    if s == "" then [""]
    else if CRLF <= s then [""] + Lines(s[2..])
    else if !Plain(s[0]) then [""] + Lines(s[1..])
    else var rest := Lines(s[1..]); [[s[0]] + rest[0]] + rest[1..]
  }

  function JoinLines(lines: seq<string>): string
    requires lines != []
  {
    if |lines| == 1 then lines[0] else lines[0] + CRLF + JoinLines(lines[1..])
  }

  lemma {:induction false} LinesAreLines(s: string)
    ensures AreLines(Lines(s))
  {
    if s == "" {
    } else if CRLF <= s {
      LinesAreLines(s[2..]);
    } else {
      LinesAreLines(s[1..]);
    }
  }

  // ---------- one pass ----------

  function OnePass(s: string): string {
    if s == "" then ""
    else if CRLF <= s then CRLF + OnePass(s[2..])
    else if !Plain(s[0]) then CRLF + OnePass(s[1..])
    else [s[0]] + OnePass(s[1..])
  }

  /** After the first pass every CR stands alone, so the second pass makes LF the only ending. */
  lemma {:induction false} TwoPasses(s: string)
    ensures var t := ReplaceAll(ReplaceAll(s, "\r\n", "\n"), "\r", "\n");
            ReplaceAll(t, "\n", "\r\n") == OnePass(s)
  {
    if s == "" {
    } else if CRLF <= s {
      TwoPasses(s[2..]);
      PassLf(ReplaceAll(s[2..], "\r\n", "\n"));
    } else {
      TwoPasses(s[1..]);
      FirstPassStep(s);
      SecondPassStep(s[0], ReplaceAll(s[1..], "\r\n", "\n"));
    }
  }

  lemma FirstPassStep(s: string)
    requires s != "" && !(CRLF <= s)
    ensures ReplaceAll(s, "\r\n", "\n") == [s[0]] + ReplaceAll(s[1..], "\r\n", "\n")
  {
    if |s| == 1 {
      assert s == [s[0]] + s[1..];
    }
  }

  lemma PassLf(t: string)
    ensures ReplaceAll(ReplaceAll("\n" + t, "\r", "\n"), "\n", "\r\n")
            == CRLF + ReplaceAll(ReplaceAll(t, "\r", "\n"), "\n", "\r\n")
  {
    assert ("\n" + t)[1..] == t;
    var u := ReplaceAll(t, "\r", "\n");
    assert ("\n" + u)[1..] == u;
  }

  lemma SecondPassStep(c: char, t: string)
    ensures ReplaceAll(ReplaceAll([c] + t, "\r", "\n"), "\n", "\r\n")
            == (if Plain(c) then [c] else CRLF) + ReplaceAll(ReplaceAll(t, "\r", "\n"), "\n", "\r\n")
  {
    assert ([c] + t)[1..] == t;
    var u := ReplaceAll(t, "\r", "\n");
    var d := if c == '\r' then '\n' else c;
    assert ([d] + u)[1..] == u;
  }

  lemma {:induction false} OnePassJoins(s: string)
    ensures OnePass(s) == JoinLines(Lines(s))
  {
    if s == "" {
    } else if CRLF <= s {
      OnePassJoins(s[2..]);
    } else {
      OnePassJoins(s[1..]);
      var rest := Lines(s[1..]);
      if Plain(s[0]) {
        assert ([[s[0]] + rest[0]] + rest[1..])[1..] == rest[1..];
      }
    }
  }

  /** The three passes are a single pass, and what they yield is the lines of the text joined by CR LF. */
  lemma {:induction false} NormalizedJoinsLines(s: string)
    ensures Normalized(s) == OnePass(s) == JoinLines(Lines(s))
  {
    TwoPasses(s);
    OnePassJoins(s);
  }

  // ---------- what is kept ----------

  lemma LinesOfPlain(c: char, t: string)
    requires Plain(c)
    ensures Lines([c] + t) == [[c] + Lines(t)[0]] + Lines(t)[1..]
  {
    var s := [c] + t;
    assert s[0] == c && CRLF[0] == '\r' && s[1..] == t;
  }

  lemma {:induction false} LinesOfLine(line: string, rest: string)
    requires IsLine(line) && (rest == "" || CRLF <= rest)
    ensures Lines(line + rest) == [line] + if rest == "" then [] else Lines(rest[2..])
  {
    if line == "" {
      assert line + rest == rest;
    } else {
      LinesOfLine(line[1..], rest);
      assert [line[0]] + (line[1..] + rest) == line + rest;
      LinesOfPlain(line[0], line[1..] + rest);
      assert [line[0]] + line[1..] == line;
    }
  }

  lemma {:induction false} LinesOfJoined(lines: seq<string>)
    requires lines != [] && AreLines(lines)
    ensures Lines(JoinLines(lines)) == lines
  {
    if |lines| == 1 {
      LinesOfLine(lines[0], "");
      assert lines[0] + "" == lines[0];
    } else {
      LinesOfJoined(lines[1..]);
      var rest := CRLF + JoinLines(lines[1..]);
      LinesOfLine(lines[0], rest);
      assert lines[0] + CRLF + JoinLines(lines[1..]) == lines[0] + rest;
      assert rest[2..] == JoinLines(lines[1..]);
      assert lines == [lines[0]] + lines[1..];
    }
  }

  /** The rewrite keeps the sequence of lines and changes nothing the second time. */
  lemma LinesKept(s: string)
    ensures Lines(Normalized(s)) == Lines(s)
    ensures Normalized(Normalized(s)) == Normalized(s)
  {
    NormalizedJoinsLines(s);
    LinesAreLines(s);
    LinesOfJoined(Lines(s));
    NormalizedJoinsLines(Normalized(s));
  }

  /** CR and LF occur only together. */
  ghost predicate OnlyPairs(s: string) {
    && (forall k :: 0 <= k < |s| && s[k] == '\r' ==> k + 1 < |s| && s[k + 1] == '\n')
    && (forall k :: 0 <= k < |s| && s[k] == '\n' ==> 0 < k && s[k - 1] == '\r')
  }

  lemma {:induction false} OnePassPairs(s: string)
    ensures OnlyPairs(OnePass(s))
  {
    if s == "" {
    } else if CRLF <= s {
      OnePassPairs(s[2..]);
      PairInFront(OnePass(s[2..]));
    } else {
      OnePassPairs(s[1..]);
      PairInFront(OnePass(s[1..]));
    }
  }

  lemma PairInFront(t: string)
    requires OnlyPairs(t)
    ensures OnlyPairs(CRLF + t)
  {
    forall k | 2 <= k < |CRLF + t|
      ensures (CRLF + t)[k] == t[k - 2]
    {
    }
  }

  lemma NormalizedHasOnlyPairs(s: string)
    ensures OnlyPairs(Normalized(s))
  {
    NormalizedJoinsLines(s);
    OnePassPairs(s);
  }

  /** A text already in this form is left alone. */
  lemma NormalizedIff(s: string)
    ensures Normalized(s) == s <==> OnlyPairs(s)
  {
    NormalizedHasOnlyPairs(s);
    if OnlyPairs(s) {
      NormalizedJoinsLines(s);
      PairsUnchanged(s);
    }
  }

  lemma {:induction false} PairsUnchanged(s: string)
    requires OnlyPairs(s)
    ensures OnePass(s) == s
  {
    if s == "" {
    } else if CRLF <= s {
      PairsUnchangedRest(s, 2);
      PairsUnchanged(s[2..]);
    } else {
      assert s[0] != '\n' && s[0] != '\r';
      PairsUnchangedRest(s, 1);
      PairsUnchanged(s[1..]);
    }
  }

  lemma PairsUnchangedRest(s: string, n: nat)
    requires OnlyPairs(s) && n <= |s| && ((n == 2 && CRLF <= s) || (n == 1 && Plain(s[0])))
    ensures OnlyPairs(s[n..])
  {
    var t := s[n..];
    assert forall k :: 0 <= k < |t| ==> t[k] == s[n + k];
    forall k | 0 <= k < |t| && t[k] == '\r'
      ensures k + 1 < |t| && t[k + 1] == '\n'
    {
      assert s[n + k] == '\r';
    }
    forall k | 0 <= k < |t| && t[k] == '\n'
      ensures 0 < k && t[k - 1] == '\r'
    {
      assert s[n + k] == '\n' && s[n + k - 1] == '\r';
      assert CRLF <= s ==> s[1] == CRLF[1];
    }
  }

  // ---------- the lines of a message on the wire ----------

  /** Only CR LF ends a line (section 2.3 of RFC 5322). */
  function WireLines(s: string): (lines: seq<string>)
    ensures lines != []
  {
    if s == "" then [""]
    else if CRLF <= s then [""] + WireLines(s[2..])
    else var rest := WireLines(s[1..]); [[s[0]] + rest[0]] + rest[1..]
  }

  /** Lines one after the other, each with its CR LF. */
  function Ended(lines: seq<string>): string {
    if lines == [] then "" else lines[0] + CRLF + Ended(lines[1..])
  }

  lemma WireLinesOfPlain(c: char, t: string)
    requires Plain(c)
    ensures WireLines([c] + t) == [[c] + WireLines(t)[0]] + WireLines(t)[1..]
  {
    var s := [c] + t;
    assert s[0] == c && CRLF[0] == '\r' && s[1..] == t;
  }

  lemma {:induction false} WireLinesOfLine(line: string, rest: string)
    requires IsLine(line)
    ensures WireLines(line + CRLF + rest) == [line] + WireLines(rest)
  {
    if line == "" {
      assert line + CRLF + rest == CRLF + rest;
    } else {
      WireLinesOfLine(line[1..], rest);
      assert [line[0]] + (line[1..] + CRLF + rest) == line + CRLF + rest;
      WireLinesOfPlain(line[0], line[1..] + CRLF + rest);
      assert [line[0]] + line[1..] == line;
    }
  }

  lemma {:induction false} WireLinesOfEnded(lines: seq<string>)
    requires AreLines(lines)
    ensures WireLines(Ended(lines)) == lines + [""]
  {
    if lines != [] {
      WireLinesOfEnded(lines[1..]);
      WireLinesOfLine(lines[0], Ended(lines[1..]));
      assert lines == [lines[0]] + lines[1..];
    }
  }

  lemma {:induction false} EndedConcat(a: seq<string>, b: seq<string>)
    ensures Ended(a + b) == Ended(a) + Ended(b)
  {
    if a == [] {
      assert a + b == b;
    } else {
      EndedConcat(a[1..], b);
      assert (a + b)[1..] == a[1..] + b;
    }
  }

  /** More lines behind a text that already ends with some. */
  lemma EndedMore(start: string, lines: seq<string>, more: seq<string>)
    ensures start + Ended(lines) + Ended(more) == start + Ended(lines + more)
  {
    EndedConcat(lines, more);
  }

  /** WriteString of a line and its CR LF. */
  method WriteLine(sb: string, line: string) returns (sb': string)
    ensures sb' == sb + Ended([line])
  {
    sb' := sb + line + CRLF;
  }

  lemma {:induction false} EndedJoined(lines: seq<string>)
    requires lines != []
    ensures Ended(lines) == JoinLines(lines) + CRLF
  {
    if |lines| > 1 {
      EndedJoined(lines[1..]);
    }
  }

  lemma {:induction false} JoinedConcat(a: seq<string>, b: seq<string>)
    requires a != [] && b != []
    ensures JoinLines(a + b) == JoinLines(a) + CRLF + JoinLines(b)
  {
    assert (a + b)[1..] == a[1..] + b;
    if |a| > 1 {
      JoinedConcat(a[1..], b);
    } else {
      assert a[1..] + b == b;
    }
  }
}
