/** Base64 as the mailer uses it: the standard encoding, cut into lines of 76 characters
    (section 6.8 of RFC 2045; mail/internal/smtp/client.go). */
module Base64 {
  import opened Text
  import opened LineEndings

  type Byte = b: int | 0 <= b < 256

  // ---------- the encoding ----------

  function Digit(v: int): char
    requires 0 <= v < 64
  {
    if v < 26 then 'A' + v as char
    else if v < 52 then 'a' + (v - 26) as char
    else if v < 62 then '0' + (v - 52) as char
    else if v == 62 then '+' else '/'
  }

  function ValueOf(c: char): (v: Option<int>)
    ensures v.Some? ==> 0 <= v.value < 64
  {
    if 'A' <= c <= 'Z' then Some(c as int - 'A' as int)
    else if 'a' <= c <= 'z' then Some(c as int - 'a' as int + 26)
    else if '0' <= c <= '9' then Some(c as int - '0' as int + 52)
    else if c == '+' then Some(62)
    else if c == '/' then Some(63)
    else None
  }

  /** Three bytes become four characters; a shorter last group is padded. */
  function Encode(data: seq<Byte>): string {
    if data == [] then ""
    else if |data| == 1 then [Digit(data[0] / 4), Digit(data[0] % 4 * 16), '=', '=']
    else if |data| == 2 then [Digit(data[0] / 4), Digit(data[0] % 4 * 16 + data[1] / 16), Digit(data[1] % 16 * 4), '=']
    else [Digit(data[0] / 4), Digit(data[0] % 4 * 16 + data[1] / 16), Digit(data[1] % 16 * 4 + data[2] / 64),
         Digit(data[2] % 64)]
         + Encode(data[3..])
  }

  // ---------- decoding ----------

  function Group(a: int, b: int, c: int, d: int): seq<Byte>
    requires 0 <= a < 64 && 0 <= b < 64 && 0 <= c < 64 && 0 <= d < 64
  {
    [a * 4 + b / 16, b % 16 * 16 + c / 4, c % 4 * 64 + d]
  }

  /** Groups of four; '=' only at the end of the last one. */
  function Decode(text: string): Option<seq<Byte>> {
    if text == "" then Some([])
    else if |text| < 4 then None
    else
      var a, b, c, d := ValueOf(text[0]), ValueOf(text[1]), ValueOf(text[2]), ValueOf(text[3]);
      if a.None? || b.None? then None
      else if text[2..] == "==" then Some(Group(a.value, b.value, 0, 0)[..1])
      else if c.None? then None
      else if text[3..] == "=" then Some(Group(a.value, b.value, c.value, 0)[..2])
      else if d.None? then None
      else
        var rest := Decode(text[4..]);
        if rest.None? then None else Some(Group(a.value, b.value, c.value, d.value) + rest.value)
  }

  lemma DigitHasValue(v: int)
    requires 0 <= v < 64
    ensures ValueOf(Digit(v)) == Some(v) && Digit(v) != '='
  {
  }

  lemma ShortVectors()
    ensures Encode([]) == "" && Encode([102]) == "Zg==" && Encode([102, 111]) == "Zm8="
    ensures Encode([98]) == "Yg==" && Encode([98, 97]) == "YmE="
  {
  }

  lemma EncodeThree(x: Byte, y: Byte, z: Byte, rest: seq<Byte>)
    ensures Encode([x, y, z] + rest)
            == [Digit(x / 4), Digit(x % 4 * 16 + y / 16), Digit(y % 16 * 4 + z / 64), Digit(z % 64)] + Encode(rest)
  {
    assert ([x, y, z] + rest)[3..] == rest;
  }

  lemma GroupOf(x: Byte, y: Byte, z: Byte, rest: seq<Byte>, group: string)
    requires group == [Digit(x / 4), Digit(x % 4 * 16 + y / 16), Digit(y % 16 * 4 + z / 64), Digit(z % 64)]
    ensures Encode([x, y, z] + rest) == group + Encode(rest)
  {
    EncodeThree(x, y, z, rest);
  }

  /** The test vectors of section 10 of RFC 4648. */
  lemma TestVectors()
    ensures Encode([]) == "" && Encode([102]) == "Zg==" && Encode([102, 111]) == "Zm8="
    ensures Encode([102, 111, 111] + []) == "Zm9v" + "" && Encode([102, 111, 111] + [98]) == "Zm9v" + "Yg=="
    ensures Encode([102, 111, 111] + [98, 97]) == "Zm9v" + "YmE="
    ensures Encode([102, 111, 111] + ([98, 97, 114] + [])) == "Zm9v" + ("YmFy" + "")
  {
    ShortVectors();
    GroupOf(102, 111, 111, [], "Zm9v");
    GroupOf(102, 111, 111, [98], "Zm9v");
    GroupOf(102, 111, 111, [98, 97], "Zm9v");
    GroupOf(98, 97, 114, [], "YmFy");
    GroupOf(102, 111, 111, [98, 97, 114] + [], "Zm9v");
  }

  lemma SixBitParts(x: Byte, y: Byte, z: Byte)
    ensures ((x / 4 * 64 + (x % 4 * 16 + y / 16)) * 64 + (y % 16 * 4 + z / 64)) * 64 + z % 64 == (x * 256 + y) * 256 + z
  {
  }

  /** Read as numbers, the four digits of a group are its three bytes. */
  lemma GroupIsNumber(x: Byte, y: Byte, z: Byte)
    ensures var s := Encode([x, y, z]);
            && |s| == 4 && (forall k :: 0 <= k < 4 ==> ValueOf(s[k]).Some?)
            && ((ValueOf(s[0]).value * 64 + ValueOf(s[1]).value) * 64 + ValueOf(s[2]).value) * 64 + ValueOf(s[3]).value
               == (x * 256 + y) * 256 + z
  {
    assert [x, y, z] + [] == [x, y, z];
    EncodeThree(x, y, z, []);
    DigitHasValue(x / 4);
    DigitHasValue(x % 4 * 16 + y / 16);
    DigitHasValue(y % 16 * 4 + z / 64);
    DigitHasValue(z % 64);
    SixBitParts(x, y, z);
  }

  lemma Halves(h: int, l: int)
    requires 0 <= h && 0 <= l
    ensures l < 16 ==> (h * 16 + l) / 16 == h && (h * 16 + l) % 16 == l
    ensures l < 4 ==> (h * 4 + l) / 4 == h && (h * 4 + l) % 4 == l
  {
  }

  lemma GroupOfBytes(x: Byte, y: Byte, z: Byte)
    ensures Group(x / 4, x % 4 * 16 + y / 16, y % 16 * 4 + z / 64, z % 64) == [x, y, z]
    ensures Group(x / 4, x % 4 * 16 + y / 16, y % 16 * 4, 0)[..2] == [x, y]
    ensures Group(x / 4, x % 4 * 16, 0, 0)[..1] == [x]
  {
    Halves(x % 4, y / 16);
    Halves(x % 4, 0);
    Halves(y % 16, z / 64);
    Halves(y % 16, 0);
  }

  lemma DecodeGroup(a: int, b: int, c: int, d: int, rest: string)
    requires 0 <= a < 64 && 0 <= b < 64 && 0 <= c < 64 && 0 <= d < 64
    ensures Decode([Digit(a), Digit(b), Digit(c), Digit(d)] + rest)
            == if Decode(rest).None? then None else Some(Group(a, b, c, d) + Decode(rest).value)
  {
    var text := [Digit(a), Digit(b), Digit(c), Digit(d)] + rest;
    DigitHasValue(a);
    DigitHasValue(b);
    DigitHasValue(c);
    DigitHasValue(d);
    assert text[4..] == rest;
    assert text[2..][0] == Digit(c) && text[3..][0] == Digit(d);
  }

  lemma DecodePadded(a: int, b: int, c: int)
    requires 0 <= a < 64 && 0 <= b < 64 && 0 <= c < 64
    ensures Decode([Digit(a), Digit(b), '=', '=']) == Some(Group(a, b, 0, 0)[..1])
    ensures Decode([Digit(a), Digit(b), Digit(c), '=']) == Some(Group(a, b, c, 0)[..2])
  {
    DigitHasValue(a);
    DigitHasValue(b);
    DigitHasValue(c);
    assert [Digit(a), Digit(b), '=', '='][2..] == "==";
    assert [Digit(a), Digit(b), Digit(c), '='][2..][0] != '=' && [Digit(a), Digit(b), Digit(c), '='][3..] == "=";
  }

  lemma DecodeShort(x: Byte, y: Byte)
    ensures Decode(Encode([x])) == Some([x])
    ensures Decode(Encode([x, y])) == Some([x, y])
  {
    GroupOfBytes(x, y, 0);
    DecodePadded(x / 4, x % 4 * 16, 0);
    DecodePadded(x / 4, x % 4 * 16 + y / 16, y % 16 * 4);
  }

  lemma DecodeThree(x: Byte, y: Byte, z: Byte, rest: seq<Byte>)
    requires Decode(Encode(rest)) == Some(rest)
    ensures Decode(Encode([x, y, z] + rest)) == Some([x, y, z] + rest)
  {
    assert ([x, y, z] + rest)[3..] == rest;
    GroupOfBytes(x, y, z);
    DecodeGroup(x / 4, x % 4 * 16 + y / 16, y % 16 * 4 + z / 64, z % 64, Encode(rest));
  }

  lemma {:induction false} DecodeEncode(data: seq<Byte>)
    ensures Decode(Encode(data)) == Some(data)
  {
    if data == [] {
    } else if |data| == 1 {
      assert data == [data[0]];
      DecodeShort(data[0], 0);
    } else if |data| == 2 {
      assert data == [data[0], data[1]];
      DecodeShort(data[0], data[1]);
    } else {
      DecodeEncode(data[3..]);
      DecodeThree(data[0], data[1], data[2], data[3..]);
      assert data == [data[0], data[1], data[2]] + data[3..];
    }
  }

  // ---------- lines of 76 ----------

  /** A character of the encoded form. */
  predicate Encoded(c: char) { ValueOf(c).Some? || c == '=' }

  ghost predicate AllEncoded(s: string) { forall k :: 0 <= k < |s| ==> Encoded(s[k]) }

  lemma {:induction false} EncodeEncoded(data: seq<Byte>)
    ensures AllEncoded(Encode(data))
  {
    if |data| >= 3 {
      EncodeEncoded(data[3..]);
    }
    forall v | 0 <= v < 64
      ensures Encoded(Digit(v))
    {
      DigitHasValue(v);
    }
  }

  const WIDTH: nat := 76

  function Chunks(s: string): seq<string> {
    if s == "" then [] else if |s| <= WIDTH then [s] else [s[..WIDTH]] + Chunks(s[WIDTH..])
  }

  lemma {:induction false} ChunksFit(s: string)
    ensures forall k :: 0 <= k < |Chunks(s)| ==> 0 < |Chunks(s)[k]| <= WIDTH
    ensures AllEncoded(s) ==> forall k :: 0 <= k < |Chunks(s)| ==> AllEncoded(Chunks(s)[k])
  {
    if |s| > WIDTH {
      ChunksFit(s[WIDTH..]);
    }
  }

  /** Writing the encoded bytes: 76 at a time. */
  method WriteLines(encoded: string) returns (sb: string)
    ensures sb == Ended(Chunks(encoded))
  {
    sb := "";
    var i := 0;
    while i < |encoded|
      invariant 0 <= i <= |encoded|
      invariant sb + Ended(Chunks(encoded[i..])) == Ended(Chunks(encoded))
    {
      var end := if i + WIDTH > |encoded| then |encoded| else i + WIDTH;
      ChunksStep(encoded, i, end, sb);
      sb := sb + encoded[i..end] + "\r\n";
      i := end;
    }
    assert encoded[|encoded|..] == "" && sb + "" == sb;
  }

  lemma ChunksStep(s: string, i: nat, end: nat, done: string)
    requires i < |s| && end == if i + WIDTH > |s| then |s| else i + WIDTH
    ensures done + Ended(Chunks(s[i..])) == done + s[i..end] + "\r\n" + Ended(Chunks(s[end..]))
  {
    var t := s[i..];
    if |t| <= WIDTH {
      assert s[end..] == "" && t == s[i..end];
      var one: seq<string> := [t];
      assert one[1..] == [];
    } else {
      assert t[..WIDTH] == s[i..end] && t[WIDTH..] == s[end..];
      assert ([t[..WIDTH]] + Chunks(t[WIDTH..]))[1..] == Chunks(t[WIDTH..]);
    }
  }

  function KeptOne(c: char): string { if Encoded(c) then [c] else "" }

  /** A reader drops every character that is not part of the encoding before decoding. */
  function Kept(s: string): string {
    if s == "" then "" else KeptOne(s[0]) + Kept(s[1..])
  }

  function DecodeLines(body: string): Option<seq<Byte>> { Decode(Kept(body)) }

  lemma {:induction false} KeptConcat(a: string, b: string)
    ensures Kept(a + b) == Kept(a) + Kept(b)
  {
    if a == "" {
      assert a + b == b;
    } else {
      KeptConcat(a[1..], b);
      assert (a + b)[1..] == a[1..] + b && (a + b)[0] == a[0];
      assert KeptOne(a[0]) + (Kept(a[1..]) + Kept(b)) == KeptOne(a[0]) + Kept(a[1..]) + Kept(b);
    }
  }

  lemma {:induction false} KeptAll(s: string)
    requires AllEncoded(s)
    ensures Kept(s) == s
  {
    if s != "" {
      KeptAll(s[1..]);
    }
  }
}
