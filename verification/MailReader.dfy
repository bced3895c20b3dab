/** What a mail reader makes of a message written by SendWithAttachments (mail/internal/smtp/client.go): it goes by
    the header fields it finds in each part, as sections 5 and 6 of RFC 2045 and section 2 of RFC 2183 have it. */
module MailReader {
  import opened Text
  import opened LineEndings
  import opened Base64
  import opened MailMessage

  // ---------- the reader ----------

  /** The value of the first field of that name. */
  function Field(header: seq<string>, name: string): Option<string> {
    if header == [] then None
    else if name + ": " <= header[0] then Some(header[0][|name| + 2..])
    else Field(header[1..], name)
  }

  /** A part's content: bytes that were encoded, or text that stands as it is. */
  datatype Content = Bytes(data: seq<Byte>) | Plain8Bit(text: string)

  /** Undoing the transfer encoding the part declares; None for one this reader does not know or that is not valid. */
  function Decoded(part: Part): Option<Content> {
    var encoding := Field(part.header, "Content-Transfer-Encoding");
    if encoding == Some("base64") then
      var data := DecodeLines(part.body);
      if data.None? then None else Some(Bytes(data.value))
    else if encoding == Some("8bit") then Some(Plain8Bit(part.body))
    else None
  }

  // ---------- what was sent ----------

  /** The part is the text: UTF-8, with the lines of the body. */
  ghost predicate IsText(part: Part, body: string) {
    && Field(part.header, "Content-Type") == Some("text/plain; charset=UTF-8")
    && Decoded(part).Some? && Decoded(part).value.Plain8Bit?
    && Lines(Decoded(part).value.text) == Lines(body)
  }

  /** The name a file goes by: its own without surrounding white space, or a stand-in for a blank one. */
  ghost predicate Named(a: Attachment, lib: Library, name: string) {
    var own := lib.trimmed(a.filename);
    name == if own == "" then "attachment" else own
  }

  /** The type a file is sent as: the one given, else one for its name, else one for its bytes, else the general
      one. */
  ghost predicate Typed(a: Attachment, lib: Library, name: string, mime: string) {
    var given, byName := lib.trimmed(a.contentType), lib.typeOfName(name);
    && (given != "" ==> mime == given)
    && (given == "" && byName != "" ==> mime == byName)
    && (given == "" && byName == "" && a.data != [] && lib.typeOfData(a.data) != "" ==>
          mime == lib.typeOfData(a.data))
    && (given == "" && byName == "" && (a.data == [] || lib.typeOfData(a.data) == "") ==>
          mime == "application/octet-stream")
  }

  /** The part is the file: its bytes, its name in the disposition, its type. */
  ghost predicate IsFile(part: Part, a: Attachment, lib: Library) {
    && Decoded(part) == Some(Bytes(a.data))
    && exists name, mime ::
         && Named(a, lib, name) && Typed(a, lib, name, mime)
         && Field(part.header, "Content-Disposition") == Some("attachment; filename=" + lib.quoted(name))
         && Field(part.header, "Content-Type") == Some(mime + "; name=" + lib.quoted(name))
  }

  ghost predicate IsMessage(parts: seq<Part>, body: string, atts: seq<Attachment>, lib: Library) {
    && |parts| == 1 + |atts|
    && IsText(parts[0], body)
    && forall n :: 0 <= n < |atts| ==> IsFile(parts[1 + n], atts[n], lib)
  }

  // ---------- the round trip ----------

  ghost predicate Differ(a: string, b: string) { exists k :: 0 <= k < |a| && k < |b| && a[k] != b[k] }

  lemma FieldHere(header: seq<string>, name: string, value: string)
    requires header != [] && header[0] == name + ": " + value
    ensures Field(header, name) == Some(value)
  {
    assert header[0][..|name| + 2] == name + ": ";
    assert header[0][|name| + 2..] == value;
  }

  lemma FieldLater(header: seq<string>, name: string, other: string, value: string)
    requires header != [] && header[0] == other + ": " + value && Differ(name, other)
    ensures Field(header, name) == Field(header[1..], name)
  {
    var k :| 0 <= k < |name| && k < |other| && name[k] != other[k];
    assert (name + ": ")[k] == name[k] && header[0][k] == other[k];
  }

  const MIME := "Content-Type"
  const ENCODING := "Content-Transfer-Encoding"
  const DISPOSITION := "Content-Disposition"

  lemma NamesDiffer()
    ensures Differ(ENCODING, MIME) && Differ(DISPOSITION, MIME) && Differ(DISPOSITION, ENCODING)
  {
    assert ENCODING[9] != MIME[9];
    assert DISPOSITION[8] != MIME[8];
    assert DISPOSITION[8] != ENCODING[8];
  }

  lemma ThreeFields(header: seq<string>, first: string, second: string, third: string)
    requires |header| >= 3
    requires header[0] == MIME + ": " + first && header[1] == ENCODING + ": " + second
    requires header[2] == DISPOSITION + ": " + third
    ensures Field(header, MIME) == Some(first) && Field(header, ENCODING) == Some(second)
    ensures Field(header, DISPOSITION) == Some(third)
  {
    NamesDiffer();
    FieldHere(header, MIME, first);
    FieldLater(header, ENCODING, MIME, first);
    FieldHere(header[1..], ENCODING, second);
    FieldLater(header, DISPOSITION, MIME, first);
    FieldLater(header[1..], DISPOSITION, ENCODING, second);
    assert header[1..][1..] == header[2..];
    FieldHere(header[2..], DISPOSITION, third);
  }

  lemma TwoFields(header: seq<string>, first: string, second: string)
    requires |header| >= 2 && header[0] == MIME + ": " + first && header[1] == ENCODING + ": " + second
    ensures Field(header, MIME) == Some(first) && Field(header, ENCODING) == Some(second)
  {
    NamesDiffer();
    FieldHere(header, MIME, first);
    FieldLater(header, ENCODING, MIME, first);
    FieldHere(header[1..], ENCODING, second);
  }

  lemma WrittenNames()
    ensures "Content-Type: " == MIME + ": " && "Content-Transfer-Encoding: " == ENCODING + ": "
    ensures "Content-Disposition: attachment; filename=" == DISPOSITION + ": " + "attachment; filename="
    ensures "Content-Transfer-Encoding: base64" == ENCODING + ": " + "base64"
  {
  }

  lemma TextNames()
    ensures TEXT_HEADER[0] == MIME + ": " + "text/plain; charset=UTF-8"
    ensures TEXT_HEADER[1] == ENCODING + ": " + "8bit"
  {
    assert "Content-Type: text/plain; charset=UTF-8" == MIME + ": " + "text/plain; charset=UTF-8" by {
      WrittenNames();
    }
    assert "Content-Transfer-Encoding: 8bit" == ENCODING + ": " + "8bit";
  }

  lemma TextHeaderFields()
    ensures Field(TEXT_HEADER, MIME) == Some("text/plain; charset=UTF-8")
    ensures Field(TEXT_HEADER, ENCODING) == Some("8bit")
  {
    TextNames();
    TwoFields(TEXT_HEADER, "text/plain; charset=UTF-8", "8bit");
  }

  lemma TextIsText(body: string)
    ensures IsText(TextPart(body), body)
  {
    TextHeaderFields();
    LinesKept(body);
  }

  lemma FileFields(a: Attachment, lib: Library)
    ensures var header, name := PartHeader(a, lib), lib.quoted(FileName(a, lib));
            && Field(header, MIME) == Some(ContentType(a, lib) + "; name=" + name)
            && Field(header, ENCODING) == Some("base64")
            && Field(header, DISPOSITION) == Some("attachment; filename=" + name)
  {
    var header, name := PartHeader(a, lib), lib.quoted(FileName(a, lib));
    WrittenNames();
    Associates("Content-Type: ", ContentType(a, lib) + "; name=", name);
    Associates("Content-Type: ", ContentType(a, lib), "; name=");
    Associates(DISPOSITION + ": ", "attachment; filename=", name);
    ThreeFields(header, ContentType(a, lib) + "; name=" + name, "base64", "attachment; filename=" + name);
  }

  lemma Associates(a: string, b: string, c: string)
    ensures a + b + c == a + (b + c)
  {
  }

  lemma AttachmentIsFile(a: Attachment, lib: Library)
    ensures IsFile(AttachmentPart(a, lib), a, lib)
  {
    AttachmentRecovered(a, lib);
    FileFields(a, lib);
    assert Named(a, lib, FileName(a, lib)) && Typed(a, lib, FileName(a, lib), ContentType(a, lib));
  }

  lemma Together(first: Part, more: seq<Part>, body: string, atts: seq<Attachment>, lib: Library)
    requires IsText(first, body) && |more| == |atts|
    requires forall n :: 0 <= n < |atts| ==> IsFile(more[n], atts[n], lib)
    ensures IsMessage([first] + more, body, atts, lib)
  {
    Behind(first, more);
  }

  lemma Behind(first: Part, more: seq<Part>)
    ensures forall n :: 0 <= n < |more| ==> ([first] + more)[1 + n] == more[n]
  {
  }

  lemma PartsAreMessage(body: string, atts: seq<Attachment>, lib: Library)
    ensures IsMessage([TextPart(body)] + AttachmentParts(atts, lib), body, atts, lib)
  {
    TextIsText(body);
    PartsOfAttachments(atts, lib);
    forall n | 0 <= n < |atts|
      ensures IsFile(AttachmentParts(atts, lib)[n], atts[n], lib)
    {
      AttachmentIsFile(atts[n], lib);
    }
    Together(TextPart(body), AttachmentParts(atts, lib), body, atts, lib);
  }

  /** The whole way: a reader that goes by the header fields it finds gets back, from what WriteMessage wrote, the
      text as UTF-8 plain text with the lines of the body, and every attachment with its bytes, its name and its
      type. */
  lemma RoundTrip(boundary: string, body: string, atts: seq<Attachment>, lib: Library)
    requires IsLine(boundary) && HeadersAreLines(atts, lib) && NoneStarts(Delimiter(boundary), Lines(body))
    ensures var parts := ReadMessage(boundary, Ended(MessageLines(boundary, body, atts, lib)));
            parts.Some? && IsMessage(parts.value, body, atts, lib)
  {
    RecoveredIff(boundary, body, atts, lib);
    PartsAreMessage(body, atts, lib);
  }
}
