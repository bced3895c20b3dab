/** SendWithAttachments of mail/internal/smtp/client.go: the multipart body it writes, and what a reader
    following section 5.1.1 of RFC 2046 gets back from it. */
module MailMessage {
  import opened Text
  import opened LineEndings
  import opened Base64

  datatype Attachment = Attachment(filename: string, contentType: string, data: seq<Byte>)

  /** Calls into Go's library: TrimSpace, the %q format, content types by extension and by content,
      and encodeHeaderIfNeeded. */
  datatype Library = Library(
    trimmed: string -> string,
    quoted: string -> string,
    typeOfName: string -> string,
    typeOfData: seq<Byte> -> string,
    headerWord: string -> string)

  function FileName(a: Attachment, lib: Library): string {
    if lib.trimmed(a.filename) == "" then "attachment" else lib.trimmed(a.filename)
  }

  function ContentType(a: Attachment, lib: Library): string {
    var given := lib.trimmed(a.contentType);
    var named := if given == "" then lib.typeOfName(FileName(a, lib)) else given;
    var sniffed := if named == "" && |a.data| > 0 then lib.typeOfData(a.data) else named;
    if sniffed == "" then "application/octet-stream" else sniffed
  }

  const TEXT_HEADER: seq<string> := ["Content-Type: text/plain; charset=UTF-8", "Content-Transfer-Encoding: 8bit"]

  function PartHeader(a: Attachment, lib: Library): seq<string> {
    var name := FileName(a, lib);
    ["Content-Type: " + ContentType(a, lib) + "; name=" + lib.quoted(name),
     "Content-Transfer-Encoding: base64",
     "Content-Disposition: attachment; filename=" + lib.quoted(name)]
    + if lib.headerWord(name) != name then ["Content-Description: " + lib.headerWord(name)] else []
  }

  // ---------- what is written ----------

  function Delimiter(boundary: string): string { "--" + boundary }

  function PartLines(a: Attachment, lib: Library): seq<string> {
    PartHeader(a, lib) + [""] + Chunks(Encode(a.data))
  }

  function Block(boundary: string, a: Attachment, lib: Library): seq<string>
  {
    [Delimiter(boundary)] + PartLines(a, lib)
  }

  function Blocks(boundary: string, atts: seq<Attachment>, lib: Library): seq<seq<string>> {
    seq(|atts|, n requires 0 <= n < |atts| => Block(boundary, atts[n], lib))
  }

  function Flat(blocks: seq<seq<string>>): seq<string> {
    if blocks == [] then [] else blocks[0] + Flat(blocks[1..])
  }

  function AttachmentLines(boundary: string, atts: seq<Attachment>, lib: Library): seq<string> {
    Flat(Blocks(boundary, atts, lib))
  }

  function TextLines(body: string): seq<string> { TEXT_HEADER + [""] + Lines(body) }

  function MessageLines(boundary: string, body: string, atts: seq<Attachment>, lib: Library): seq<string> {
    [Delimiter(boundary)] + TextLines(body) + AttachmentLines(boundary, atts, lib) + [Delimiter(boundary) + "--"]
  }

  method WritePartHeader(sb: string, a: Attachment, lib: Library) returns (sb': string)
    ensures sb' == sb + Ended(PartHeader(a, lib))
  {
    var name := FileName(a, lib);
    var first := "Content-Type: " + ContentType(a, lib) + "; name=" + lib.quoted(name);
    var second := "Content-Transfer-Encoding: base64";
    var third := "Content-Disposition: attachment; filename=" + lib.quoted(name);
    sb' := WriteLine(sb, first);
    sb' := WriteLine(sb', second);
    sb' := WriteLine(sb', third);
    EndedMore(sb, [first], [second]);
    EndedMore(sb, [first] + [second], [third]);
    ghost var lines := [first] + [second] + [third];
    if lib.headerWord(name) != name {
      var fourth := "Content-Description: " + lib.headerWord(name);
      sb' := WriteLine(sb', fourth);
      EndedMore(sb, lines, [fourth]);
      lines := lines + [fourth];
    }
    assert lines == PartHeader(a, lib);
  }

  method WriteData(sb: string, a: Attachment) returns (sb': string)
    ensures sb' == sb + Ended(Chunks(Encode(a.data)))
  {
    var lines := WriteLines(Encode(a.data));
    sb' := sb + lines;
  }

  /** One turn of the loop over the attachments. */
  method WritePart(sb: string, boundary: string, a: Attachment, lib: Library) returns (sb': string)
    ensures sb' == sb + Ended(Block(boundary, a, lib))
  {
    sb' := WriteLine(sb, "--" + boundary);
    sb' := WritePartHeader(sb', a, lib);
    sb' := WriteLine(sb', "");
    sb' := WriteData(sb', a);
    EndedMore(sb, [Delimiter(boundary)], PartHeader(a, lib));
    EndedMore(sb, [Delimiter(boundary)] + PartHeader(a, lib), [""]);
    EndedMore(sb, [Delimiter(boundary)] + PartHeader(a, lib) + [""], Chunks(Encode(a.data)));
    assert [Delimiter(boundary)] + PartHeader(a, lib) + [""] + Chunks(Encode(a.data)) == Block(boundary, a, lib);
  }

  lemma BodyEnded(body: string)
    ensures Normalized(body) + CRLF == Ended(Lines(body))
  {
    NormalizedJoinsLines(body);
    EndedJoined(Lines(body));
  }

  /** The text part. */
  method WriteText(sb: string, boundary: string, body: string) returns (sb': string)
    ensures sb' == sb + Ended([Delimiter(boundary)] + TextLines(body))
  {
    var d, none := Delimiter(boundary), "";
    sb' := WriteLine(sb, d);
    sb' := WriteLine(sb', TEXT_HEADER[0]);
    sb' := WriteLine(sb', TEXT_HEADER[1]);
    sb' := WriteLine(sb', none);
    ghost var lines := [d] + [TEXT_HEADER[0]] + [TEXT_HEADER[1]] + [none];
    EndedMore(sb, [d], [TEXT_HEADER[0]]);
    EndedMore(sb, [d] + [TEXT_HEADER[0]], [TEXT_HEADER[1]]);
    EndedMore(sb, [d] + [TEXT_HEADER[0]] + [TEXT_HEADER[1]], [none]);
    sb' := WriteBody(sb', body);
    EndedMore(sb, lines, Lines(body));
    assert lines + Lines(body) == [d] + TextLines(body);
  }

  method WriteBody(sb: string, body: string) returns (sb': string)
    ensures sb' == sb + Ended(Lines(body))
  {
    var text := Normalized(body) + CRLF;
    BodyEnded(body);
    sb' := sb + text;
  }

  lemma BlocksStep(blocks: seq<seq<string>>, n: nat, done: string)
    requires n < |blocks|
    ensures done + Ended(Flat(blocks[n..])) == done + Ended(blocks[n]) + Ended(Flat(blocks[n + 1..]))
  {
    assert blocks[n..][1..] == blocks[n + 1..];
    EndedMore(done, blocks[n], Flat(blocks[n + 1..]));
  }

  method WriteAttachments(sb: string, boundary: string, atts: seq<Attachment>, lib: Library) returns (sb': string)
    ensures sb' == sb + Ended(AttachmentLines(boundary, atts, lib))
  {
    sb' := sb;
    ghost var blocks := Blocks(boundary, atts, lib);
    ghost var whole := sb + Ended(Flat(blocks));
    for n := 0 to |atts|
      invariant sb' + Ended(Flat(blocks[n..])) == whole
    {
      BlocksStep(blocks, n, sb');
      sb' := WritePart(sb', boundary, atts[n], lib);
    }
  }

  /** The message after its header fields, `head`. */
  method WriteMessage(head: string, boundary: string, body: string, atts: seq<Attachment>, lib: Library)
    returns (sb: string)
    ensures sb == head + CRLF + Ended(MessageLines(boundary, body, atts, lib))
  {
    ghost var start, text := head + CRLF, [Delimiter(boundary)] + TextLines(body);
    sb := head + CRLF;
    sb := WriteText(sb, boundary, body);
    sb := WriteAttachments(sb, boundary, atts, lib);
    EndedMore(start, text, AttachmentLines(boundary, atts, lib));
    sb := WriteLine(sb, "--" + boundary + "--");
    EndedMore(start, text + AttachmentLines(boundary, atts, lib), [Delimiter(boundary) + "--"]);
  }

  // ---------- what a reader gets ----------

  datatype Part = Part(header: seq<string>, body: string)

  function JoinedOrEmpty(lines: seq<string>): string { if lines == [] then "" else JoinLines(lines) }

  /** Header lines up to the first empty line, then the body; no empty line, no body. */
  function ReadPart(lines: seq<string>): Part {
    if lines == [] then Part([], "")
    else if lines[0] == "" then Part([], JoinedOrEmpty(lines[1..]))
    else var rest := ReadPart(lines[1..]); Part([lines[0]] + rest.header, rest.body)
  }

  /** The parts among the lines after a delimiter line: a line that starts with the delimiter ends a part,
      one that goes on with "--" ends the last. The CR LF before such a line belongs to it. */
  function Collect(delimiter: string, lines: seq<string>, part: seq<string>): Option<seq<Part>>
    decreases |lines|
  {
    if lines == [] then None
    else if delimiter + "--" <= lines[0] then Some([ReadPart(part)])
    else if delimiter <= lines[0] then
      var rest := Collect(delimiter, lines[1..], []);
      if rest.None? then None else Some([ReadPart(part)] + rest.value)
    else Collect(delimiter, lines[1..], part + [lines[0]])
  }

  /** Everything before the first delimiter line is preamble. */
  function Split(boundary: string, lines: seq<string>): Option<seq<Part>>
    decreases |lines|
  {
    if lines == [] then None
    else if Delimiter(boundary) + "--" <= lines[0] then None
    else if Delimiter(boundary) <= lines[0] then Collect(Delimiter(boundary), lines[1..], [])
    else Split(boundary, lines[1..])
  }

  function ReadMessage(boundary: string, text: string): Option<seq<Part>> { Split(boundary, WireLines(text)) }

  // ---------- the round trip ----------

  function TextPart(body: string): Part { Part(TEXT_HEADER, Normalized(body)) }

  function AttachmentPart(a: Attachment, lib: Library): Part {
    Part(PartHeader(a, lib), JoinedOrEmpty(Chunks(Encode(a.data))))
  }

  function AttachmentParts(atts: seq<Attachment>, lib: Library): seq<Part> {
    if atts == [] then [] else [AttachmentPart(atts[0], lib)] + AttachmentParts(atts[1..], lib)
  }

  ghost predicate NoneStarts(delimiter: string, lines: seq<string>) {
    forall k :: 0 <= k < |lines| ==> !(delimiter <= lines[k])
  }

  lemma {:induction false} CollectThrough(delimiter: string, lines: seq<string>, more: seq<string>, part: seq<string>)
    requires NoneStarts(delimiter, lines)
    ensures Collect(delimiter, lines + more, part) == Collect(delimiter, more, part + lines)
  {
    if lines == [] {
      assert lines + more == more && part + lines == part;
    } else {
      CloseStarts(delimiter, lines[0]);
      assert (lines + more)[1..] == lines[1..] + more && (lines + more)[0] == lines[0];
      CollectThrough(delimiter, lines[1..], more, part + [lines[0]]);
      assert part + [lines[0]] + lines[1..] == part + lines;
    }
  }

  lemma CloseStarts(delimiter: string, line: string)
    ensures delimiter + "--" <= line ==> delimiter <= line
  {
    if delimiter + "--" <= line {
      assert delimiter == (delimiter + "--")[..|delimiter|] == line[..|delimiter|];
    }
  }

  lemma {:induction false} ReadPartSplits(header: seq<string>, body: seq<string>)
    requires forall k :: 0 <= k < |header| ==> header[k] != ""
    ensures ReadPart(header + [""] + body) == Part(header, JoinedOrEmpty(body))
  {
    var lines := header + [""] + body;
    if header == [] {
      assert lines[1..] == body;
    } else {
      ReadPartSplits(header[1..], body);
      assert lines[1..] == header[1..] + [""] + body;
      assert [header[0]] + header[1..] == header;
    }
  }

  lemma StartsWithDash(boundary: string, line: string)
    ensures Delimiter(boundary) <= line ==> line != "" && line[0] == '-'
  {
    assert Delimiter(boundary)[0] == '-';
  }

  lemma PartLinesPlain(boundary: string, a: Attachment, lib: Library)
    ensures NoneStarts(Delimiter(boundary), PartLines(a, lib))
  {
    var lines := PartLines(a, lib);
    var encoded := Encode(a.data);
    EncodeEncoded(a.data);
    ChunksFit(encoded);
    forall k | 0 <= k < |lines|
      ensures !(Delimiter(boundary) <= lines[k])
    {
      var h := |PartHeader(a, lib)|;
      if k < h {
        assert lines[k] == PartHeader(a, lib)[k];
      } else if k > h {
        assert lines[k] == Chunks(encoded)[k - h - 1];
        assert Encoded(lines[k][0]);
      }
      StartsWithDash(boundary, lines[k]);
    }
  }

  // ---------- all parts ----------

  ghost function Closing(boundary: string): seq<string> { [Delimiter(boundary) + "--", ""] }

  lemma HeaderFilled(a: Attachment, lib: Library)
    ensures forall k :: 0 <= k < |PartHeader(a, lib)| ==> PartHeader(a, lib)[k] != ""
  {
  }

  lemma CollectBlock(boundary: string, a: Attachment, lib: Library, after: seq<string>, part: seq<string>)
    ensures var rest := Collect(Delimiter(boundary), after, PartLines(a, lib));
            Collect(Delimiter(boundary), Block(boundary, a, lib) + after, part)
            == if rest.None? then None else Some([ReadPart(part)] + rest.value)
  {
    var d := Delimiter(boundary);
    var lines := Block(boundary, a, lib) + after;
    assert lines[0] == d && lines[1..] == PartLines(a, lib) + after;
    assert !(d + "--" <= d);
    PartLinesPlain(boundary, a, lib);
    CollectThrough(d, PartLines(a, lib), after, []);
    assert [] + PartLines(a, lib) == PartLines(a, lib);
  }

  lemma PartIsRead(a: Attachment, lib: Library)
    ensures ReadPart(PartLines(a, lib)) == AttachmentPart(a, lib)
  {
    HeaderFilled(a, lib);
    ReadPartSplits(PartHeader(a, lib), Chunks(Encode(a.data)));
  }

  /** Reading from inside a part to the end of the message. */
  lemma {:induction false} CollectAttachments(boundary: string, atts: seq<Attachment>, lib: Library, part: seq<string>)
    ensures Collect(Delimiter(boundary), AttachmentLines(boundary, atts, lib) + Closing(boundary), part)
            == Some([ReadPart(part)] + AttachmentParts(atts, lib))
  {
    if atts == [] {
      assert Blocks(boundary, atts, lib) == [];
      assert AttachmentLines(boundary, atts, lib) + Closing(boundary) == Closing(boundary);
      assert [ReadPart(part)] + AttachmentParts(atts, lib) == [ReadPart(part)];
    } else {
      var rest := AttachmentLines(boundary, atts[1..], lib) + Closing(boundary);
      assert Blocks(boundary, atts, lib)[1..] == Blocks(boundary, atts[1..], lib);
      assert AttachmentLines(boundary, atts, lib) + Closing(boundary) == Block(boundary, atts[0], lib) + rest;
      CollectBlock(boundary, atts[0], lib, rest, part);
      CollectAttachments(boundary, atts[1..], lib, PartLines(atts[0], lib));
      PartIsRead(atts[0], lib);
    }
  }

  /** The lines after the first delimiter line, up to the end of the message. */
  ghost function AfterText(boundary: string, atts: seq<Attachment>, lib: Library): seq<string> {
    AttachmentLines(boundary, atts, lib) + Closing(boundary)
  }

  lemma TextHeaderPlain(boundary: string)
    ensures NoneStarts(Delimiter(boundary), TEXT_HEADER + [""])
  {
    forall k | 0 <= k < 3
      ensures !(Delimiter(boundary) <= (TEXT_HEADER + [""])[k])
    {
      StartsWithDash(boundary, (TEXT_HEADER + [""])[k]);
    }
  }

  /** The reader goes past the text part's own header whatever the body is. */
  lemma CollectText(boundary: string, body: seq<string>, after: seq<string>)
    ensures Collect(Delimiter(boundary), TEXT_HEADER + [""] + body + after, [])
            == Collect(Delimiter(boundary), body + after, TEXT_HEADER + [""])
  {
    TextHeaderPlain(boundary);
    CollectThrough(Delimiter(boundary), TEXT_HEADER + [""], body + after, []);
    assert TEXT_HEADER + [""] + body + after == TEXT_HEADER + [""] + (body + after);
    assert [] + (TEXT_HEADER + [""]) == TEXT_HEADER + [""];
  }

  lemma TextIsRead(body: seq<string>)
    ensures ReadPart(TEXT_HEADER + [""] + body) == Part(TEXT_HEADER, JoinedOrEmpty(body))
  {
    ReadPartSplits(TEXT_HEADER, body);
  }

  lemma GoodBodyIsRead(boundary: string, body: string, atts: seq<Attachment>, lib: Library)
    requires NoneStarts(Delimiter(boundary), Lines(body))
    ensures Collect(Delimiter(boundary), Lines(body) + AfterText(boundary, atts, lib), TEXT_HEADER + [""])
            == Some([TextPart(body)] + AttachmentParts(atts, lib))
  {
    CollectThrough(Delimiter(boundary), Lines(body), AfterText(boundary, atts, lib), TEXT_HEADER + [""]);
    CollectAttachments(boundary, atts, lib, TEXT_HEADER + [""] + Lines(body));
    TextIsRead(Lines(body));
    NormalizedJoinsLines(body);
  }

  /** A body line that starts with the delimiter ends the text part early. */
  lemma BadBodyIsCut(boundary: string, body: string, k: nat, after: seq<string>)
    requires k < |Lines(body)| && Delimiter(boundary) <= Lines(body)[k]
    requires NoneStarts(Delimiter(boundary), Lines(body)[..k])
    ensures var r := Collect(Delimiter(boundary), Lines(body) + after, TEXT_HEADER + [""]);
            r.Some? ==> r.value != [] && r.value[0] != TextPart(body)
  {
    var d, lines := Delimiter(boundary), Lines(body);
    assert lines + after == lines[..k] + (lines[k..] + after);
    CollectThrough(d, lines[..k], lines[k..] + after, TEXT_HEADER + [""]);
    assert (lines[k..] + after)[0] == lines[k];
    TextIsRead(lines[..k]);
    NormalizedJoinsLines(body);
    CutIsShorter(lines, k);
  }

  lemma CutIsShorter(lines: seq<string>, k: nat)
    requires k < |lines| && (k == 0 ==> lines[0] != "")
    ensures JoinedOrEmpty(lines[..k]) != JoinLines(lines)
  {
    if k == 0 {
      assert lines[0] <= JoinLines(lines);
    } else {
      JoinedConcat(lines[..k], lines[k..]);
      assert lines[..k] + lines[k..] == lines;
    }
  }

  lemma FirstBad(delimiter: string, lines: seq<string>) returns (k: nat)
    requires !NoneStarts(delimiter, lines)
    ensures k < |lines| && delimiter <= lines[k] && NoneStarts(delimiter, lines[..k])
  {
    k := 0;
    while !(delimiter <= lines[k])
      invariant k < |lines| && NoneStarts(delimiter, lines[..k])
      invariant exists j :: k <= j < |lines| && delimiter <= lines[j]
      decreases |lines| - k
    {
      k := k + 1;
    }
  }

  ghost predicate HeadersAreLines(atts: seq<Attachment>, lib: Library) {
    forall n :: 0 <= n < |atts| ==> AreLines(PartHeader(atts[n], lib))
  }

  lemma ChunksAreLines(a: Attachment)
    ensures AreLines(Chunks(Encode(a.data)))
  {
    EncodeEncoded(a.data);
    ChunksFit(Encode(a.data));
    forall k, j | 0 <= k < |Chunks(Encode(a.data))| && 0 <= j < |Chunks(Encode(a.data))[k]|
      ensures Plain(Chunks(Encode(a.data))[k][j])
    {
      assert Encoded(Chunks(Encode(a.data))[k][j]);
    }
  }

  lemma {:induction false} FlatLines(blocks: seq<seq<string>>)
    requires forall n :: 0 <= n < |blocks| ==> AreLines(blocks[n])
    ensures AreLines(Flat(blocks))
  {
    if blocks != [] {
      FlatLines(blocks[1..]);
    }
  }

  lemma LinesConcat(a: seq<string>, b: seq<string>)
    requires AreLines(a) && AreLines(b)
    ensures AreLines(a + b)
  {
  }

  lemma PartIsLines(boundary: string, a: Attachment, lib: Library)
    requires IsLine(boundary) && AreLines(PartHeader(a, lib))
    ensures AreLines(Block(boundary, a, lib))
  {
    ChunksAreLines(a);
    LinesConcat(PartHeader(a, lib), [""]);
    LinesConcat(PartHeader(a, lib) + [""], Chunks(Encode(a.data)));
    LinesConcat([Delimiter(boundary)], PartLines(a, lib));
  }

  lemma MessageIsLines(boundary: string, body: string, atts: seq<Attachment>, lib: Library)
    requires IsLine(boundary) && HeadersAreLines(atts, lib)
    ensures AreLines(MessageLines(boundary, body, atts, lib))
  {
    LinesAreLines(body);
    forall n | 0 <= n < |atts|
      ensures AreLines(Blocks(boundary, atts, lib)[n])
    {
      PartIsLines(boundary, atts[n], lib);
    }
    FlatLines(Blocks(boundary, atts, lib));
    LinesConcat(TEXT_HEADER + [""], Lines(body));
    LinesConcat([Delimiter(boundary)], TextLines(body));
    LinesConcat([Delimiter(boundary)] + TextLines(body), AttachmentLines(boundary, atts, lib));
    LinesConcat([Delimiter(boundary)] + TextLines(body) + AttachmentLines(boundary, atts, lib),
                [Delimiter(boundary) + "--"]);
  }

  lemma Regroup(a: seq<string>, b: seq<string>, c: seq<string>, d: seq<string>, last: string)
    ensures a + (b + c) + d + [last] + [""] == a + (b + c + (d + [last, ""]))
  {
  }

  lemma ReadingStarts(boundary: string, body: string, atts: seq<Attachment>, lib: Library)
    requires IsLine(boundary) && HeadersAreLines(atts, lib)
    ensures ReadMessage(boundary, Ended(MessageLines(boundary, body, atts, lib)))
            == Collect(Delimiter(boundary), Lines(body) + AfterText(boundary, atts, lib), TEXT_HEADER + [""])
  {
    var lines, after := MessageLines(boundary, body, atts, lib), AfterText(boundary, atts, lib);
    MessageIsLines(boundary, body, atts, lib);
    WireLinesOfEnded(lines);
    Regroup([Delimiter(boundary)], TEXT_HEADER + [""], Lines(body), AttachmentLines(boundary, atts, lib),
            Delimiter(boundary) + "--");
    FirstLineOpens(boundary, TEXT_HEADER + [""] + Lines(body) + after);
    CollectText(boundary, Lines(body), after);
  }

  /** A reader gets back the text and every attachment, part by part, exactly when no line of the body
      starts with the delimiter. */
  lemma RecoveredIff(boundary: string, body: string, atts: seq<Attachment>, lib: Library)
    requires IsLine(boundary) && HeadersAreLines(atts, lib)
    ensures ReadMessage(boundary, Ended(MessageLines(boundary, body, atts, lib)))
            == Some([TextPart(body)] + AttachmentParts(atts, lib))
            <==> NoneStarts(Delimiter(boundary), Lines(body))
  {
    var d, after := Delimiter(boundary), AfterText(boundary, atts, lib);
    ReadingStarts(boundary, body, atts, lib);
    if NoneStarts(d, Lines(body)) {
      GoodBodyIsRead(boundary, body, atts, lib);
    } else {
      var k := FirstBad(d, Lines(body));
      BadBodyIsCut(boundary, body, k, after);
    }
  }

  lemma FirstLineOpens(boundary: string, rest: seq<string>)
    ensures Split(boundary, [Delimiter(boundary)] + rest) == Collect(Delimiter(boundary), rest, [])
  {
    var d := Delimiter(boundary);
    assert ([d] + rest)[0] == d && ([d] + rest)[1..] == rest;
    assert !(d + "--" <= d);
  }

  /** Decoding a part's body gives the attachment's bytes, also when there are none, and no line of it is
      longer than 76 characters. */
  lemma AttachmentRecovered(a: Attachment, lib: Library)
    ensures DecodeLines(AttachmentPart(a, lib).body) == Some(a.data)
    ensures forall k :: 0 <= k < |Chunks(Encode(a.data))| ==> |Chunks(Encode(a.data))[k]| <= WIDTH
  {
    EncodeEncoded(a.data);
    ChunksFit(Encode(a.data));
    KeptOfChunks(Encode(a.data));
    DecodeEncode(a.data);
  }

  lemma {:induction false} KeptOfChunks(s: string)
    requires AllEncoded(s)
    ensures Kept(JoinedOrEmpty(Chunks(s))) == s
  {
    if |s| <= WIDTH {
      KeptAll(s);
    } else {
      KeptOfChunks(s[WIDTH..]);
      KeptAll(s[..WIDTH]);
      var rest := Chunks(s[WIDTH..]);
      assert Chunks(s) == [s[..WIDTH]] + rest && Chunks(s)[1..] == rest;
      KeptConcat(s[..WIDTH] + CRLF, JoinLines(rest));
      KeptConcat(s[..WIDTH], CRLF);
      KeptBreak();
    }
  }

  lemma KeptBreak()
    ensures Kept(CRLF) == ""
  {
    assert CRLF[1..] == "\n" && "\n"[1..] == "";
  }

  lemma {:induction false} PartsOfAttachments(atts: seq<Attachment>, lib: Library)
    ensures |AttachmentParts(atts, lib)| == |atts|
    ensures forall n :: 0 <= n < |atts| ==> AttachmentParts(atts, lib)[n] == AttachmentPart(atts[n], lib)
  {
    if atts != [] {
      PartsOfAttachments(atts[1..], lib);
    }
  }
}
