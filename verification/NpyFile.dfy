/**
 What stands before the data of an `.npy` file: magic string, version, length and header text,
 as written to one stream and read from another.
 */
module NpyFile {
  import opened Sequences
  import opened PyLiteral
  import opened NpyHeader

  /** Where the two-byte length of version 1.0 gives way to the four bytes of 2.0. */
  const VERSION_LIMIT: nat := 255 * 255

  class OutStream {
    var written: string

    constructor ()
      ensures written == ""
    {
      written := "";
    }

    method Write(s: string)
      modifies this
      ensures written == old(written) + s
    {
      written := written + s;
    }
  }

  class InStream {
    var rest: string

    constructor (content: string)
      ensures rest == content
    {
      rest := content;
    }

    /** Fills a zeroed buffer with what is left, up to its size. */
    method Read(n: nat) returns (buffer: string, complete: bool)
      modifies this
      ensures buffer == Filled(old(rest), n) && complete == (n <= |old(rest)|)
      ensures rest == Dropped(old(rest), n)
    {
      buffer, complete := Filled(rest, n), n <= |rest|;
      rest := Dropped(rest, n);
    }
  }

  function Zeros(n: nat): (s: string)
    ensures |s| == n
  {
    seq(n, i => '\0')
  }

  function Filled(s: string, n: nat): (r: string)
    ensures |r| == n
  {
    if n <= |s| then s[..n] else s + Zeros(n - |s|)
  }

  function Dropped(s: string, n: nat): string {
    if n <= |s| then s[n..] else ""
  }

  // ---------------------------------------------------------------------- lengths

  function ByteChar(n: nat): char {
    (n % 0x100) as char
  }

  function LittleEndian2(n: nat): (s: string)
    ensures |s| == 2
  {
    [ByteChar(n), ByteChar(n / 0x100)]
  }

  function LittleEndian4(n: nat): (s: string)
    ensures |s| == 4
  {
    LittleEndian2(n) + LittleEndian2(n / 0x1_0000)
  }

  function FromLittle2(s: string): nat
    requires |s| == 2
  {
    s[0] as nat + 0x100 * s[1] as nat
  }

  function FromLittle4(s: string): nat
    requires |s| == 4
  {
    FromLittle2(s[..2]) + 0x1_0000 * FromLittle2(s[2..])
  }

  lemma Two(n: nat)
    ensures FromLittle2(LittleEndian2(n)) == n % 0x1_0000
  {
    var q := n / 0x100;
    assert n == q * 0x100 + n % 0x100 && q == q / 0x100 * 0x100 + q % 0x100;
  }

  lemma Four(n: nat)
    ensures FromLittle4(LittleEndian4(n)) == n % 0x1_0000_0000
  {
    var s := LittleEndian4(n);
    assert s[..2] == LittleEndian2(n) && s[2..] == LittleEndian2(n / 0x1_0000);
    Two(n);
    Two(n / 0x1_0000);
    LowAndHigh(n);
  }

  lemma LowAndHigh(n: nat)
    ensures n % 0x1_0000 + 0x1_0000 * (n / 0x1_0000 % 0x1_0000) == n % 0x1_0000_0000
  {
    var q := n / 0x1_0000;
    assert n == q * 0x1_0000 + n % 0x1_0000 && q == q / 0x1_0000 * 0x1_0000 + q % 0x1_0000;
  }

  // --------------------------------------------------------------------- preamble

  /** The length without padding, for a dictionary and a length field of so many bytes. */
  function BareLength(dict: nat, bytes: nat): nat {
    6 + 2 + bytes + dict + 1
  }

  /** Version 2.0 is needed. */
  predicate Long(dict: nat) {
    BareLength(dict, 2) >= VERSION_LIMIT
  }

  function LengthBytes(dict: nat): nat {
    if Long(dict) then 4 else 2
  }

  /** Blanks up to the next multiple of 16; at least one, at most 16. */
  function Padding(dict: nat): (s: string)
    ensures AllBlank(s) && |s| == 16 - BareLength(dict, LengthBytes(dict)) % 16
  {
    seq(16 - BareLength(dict, LengthBytes(dict)) % 16, i => ' ')
  }

  /** The length that is written, before it is cut to the field. */
  function TextLength(dict: nat): (n: nat)
    ensures dict + 2 <= n <= dict + 17
  {
    dict + (16 - BareLength(dict, LengthBytes(dict)) % 16) + 1
  }

  /** The length as its field holds it. */
  function FieldValue(dict: nat): nat {
    TextLength(dict) % (if Long(dict) then 0x1_0000_0000 else 0x1_0000)
  }

  function LengthField(dict: nat): (s: string)
    ensures |s| == LengthBytes(dict)
  {
    if Long(dict) then LittleEndian4(FieldValue(dict)) else LittleEndian2(FieldValue(dict))
  }

  function Version(dict: nat): (s: string)
    ensures |s| == 2
  {
    [if Long(dict) then '\U{2}' else '\U{1}', '\0']
  }

  /** The header's text as written. */
  function Text(dict: string): (s: string)
    ensures |s| == TextLength(|dict|)
  {
    dict + Padding(|dict|) + "\n"
  }

  function Preamble(dict: string): string {
    MAGIC + (Version(|dict|) + (LengthField(|dict|) + Text(dict)))
  }

  method WriteHeader(out: OutStream, h: Header)
    modifies out
    ensures out.written == old(out.written) + Preamble(HeaderDict(h))
  {
    WriteDict(out, HeaderDict(h));
  }

  method WriteDict(out: OutStream, dict: string)
    modifies out
    ensures out.written == old(out.written) + Preamble(dict)
  {
    ghost var before := out.written;
    var length := 6 + 2 + 2 + |dict| + 1;
    var long := length >= VERSION_LIMIT;
    if long {
      length := 6 + 2 + 4 + |dict| + 1;
    }
    var padding := seq(16 - length % 16, i => ' ');
    assert padding == Padding(|dict|);
    out.Write(MAGIC);
    out.Write([if long then '\U{2}' else '\U{1}', '\0']);
    var size := |dict| + |padding| + 1;
    if !long {
      out.Write(LittleEndian2(size % 0x1_0000));
    } else {
      out.Write(LittleEndian4(size % 0x1_0000_0000));
    }
    out.Write(dict + padding + "\n");
    FourParts(before, MAGIC, Version(|dict|), LengthField(|dict|), Text(dict));
  }

  lemma FourParts<T>(a: seq<T>, b: seq<T>, c: seq<T>, d: seq<T>, e: seq<T>)
    ensures (((a + b) + c) + d) + e == a + (b + (c + (d + e)))
  {
  }

  /** The preamble of every header is a multiple of 16 bytes long, so the data is aligned. */
  lemma PreambleIsAligned(dict: string)
    ensures |Preamble(dict)| % 16 == 0
  {
    var bare := BareLength(|dict|, LengthBytes(|dict|));
    assert |Preamble(dict)| == bare + (16 - bare % 16);
    Aligned(bare);
  }

  lemma Aligned(n: nat)
    ensures (n + (16 - n % 16)) % 16 == 0
  {
    assert n + (16 - n % 16) == 16 * (n / 16 + 1);
  }

  /** In version 1.0 the length always fits its two bytes; in 2.0 below 4 GiB it fits its four. */
  lemma LengthFits(dict: nat)
    ensures FieldValue(dict) == TextLength(dict) <==> TextLength(dict) < 0x1_0000_0000
    ensures !Long(dict) ==> TextLength(dict) < 0x1_0000
    ensures FieldValue(dict) <= TextLength(dict)
  {
  }

  // ---------------------------------------------------------------------- reading

  datatype HeaderRead = HeaderRead(text: Result<string>, rest: string)

  /** What reading a header leaves: its text, or what was wrong, and the rest of the stream. */
  function ReadFrom(s: string): HeaderRead {
    if |s| < 8 then HeaderRead(Err(InvalidHeader), "")
    else if s[..6] != MAGIC then HeaderRead(Err(NotAnArrayFile), s[8..])
    else if s[6] == '\U{1}' && s[7] == '\0' then TextAfter(s[8..], 2)
    else if s[6] == '\U{2}' && s[7] == '\0' then TextAfter(s[8..], 4)
    else HeaderRead(Err(UnsupportedVersion), s[8..])
  }

  function TextAfter(s: string, bytes: nat): HeaderRead
    requires bytes == 2 || bytes == 4
  {
    var length := if bytes == 2 then FromLittle2(Filled(s, 2)) else FromLittle4(Filled(s, 4));
    var rest := Dropped(s, bytes);
    HeaderRead(Ok(Filled(rest, length)), Dropped(rest, length))
  }

  method ReadHeader(input: InStream) returns (text: Result<string>)
    modifies input
    ensures HeaderRead(text, input.rest) == ReadFrom(old(input.rest))
  {
    var start, complete := input.Read(8);
    if !complete {
      return Err(InvalidHeader);
    }
    if start[..6] != MAGIC {
      return Err(NotAnArrayFile);
    }
    var length;
    if start[6] == '\U{1}' && start[7] == '\0' {
      var bytes, _ := input.Read(2);
      length := FromLittle2(bytes);
    } else if start[6] == '\U{2}' && start[7] == '\0' {
      var bytes, _ := input.Read(4);
      length := FromLittle4(bytes);
    } else {
      return Err(UnsupportedVersion);
    }
    var buffer, _ := input.Read(length);
    text := Ok(buffer);
  }

  lemma ReadAfterLength(length: string, text: string, data: string, n: nat)
    requires |length| == 2 || |length| == 4
    requires n == if |length| == 2 then FromLittle2(length) else FromLittle4(length)
    requires n <= |text|
    ensures TextAfter(length + (text + data), |length|) == HeaderRead(Ok(text[..n]), text[n..] + data)
  {
    var s := length + (text + data);
    assert s[..|length|] == length && s[|length|..] == text + data;
    assert (text + data)[..n] == text[..n] && (text + data)[n..] == text[n..] + data;
  }

  lemma FieldIsRead(dict: nat)
    ensures FieldValue(dict)
         == if LengthBytes(dict) == 2 then FromLittle2(LengthField(dict)) else FromLittle4(LengthField(dict))
  {
    if Long(dict) {
      LongFieldIsRead(dict);
    } else {
      ShortFieldIsRead(dict);
    }
  }

  lemma LongFieldIsRead(dict: nat)
    requires Long(dict)
    ensures LengthBytes(dict) == 4 && FromLittle4(LengthField(dict)) == FieldValue(dict)
  {
    Four(FieldValue(dict));
  }

  lemma ShortFieldIsRead(dict: nat)
    requires !Long(dict)
    ensures LengthBytes(dict) == 2 && FromLittle2(LengthField(dict)) == FieldValue(dict)
  {
    Two(FieldValue(dict));
  }

  lemma ReadsPreamble(version: string, length: string, text: string, data: string, n: nat)
    requires version == (if |length| == 4 then ['\U{2}', '\0'] else ['\U{1}', '\0'])
    requires |length| == 2 || |length| == 4
    requires n == if |length| == 2 then FromLittle2(length) else FromLittle4(length)
    requires n <= |text|
    ensures ReadFrom(MAGIC + (version + (length + text)) + data) == HeaderRead(Ok(text[..n]), text[n..] + data)
  {
    var s := MAGIC + (version + (length + text)) + data;
    assert s[..6] == MAGIC && s[6] == version[0] && s[7] == version[1];
    assert s[8..] == length + (text + data);
    ReadAfterLength(length, text, data, n);
  }

  /**
   The text read back is the text written, and the stream stands at the data, exactly when
   the text is shorter than 4 GiB: the length is cut to 32 bits.
   */
  lemma TextIsReadBack(dict: string, data: string)
    ensures ReadFrom(Preamble(dict) + data) == HeaderRead(Ok(Text(dict)), data) <==> |Text(dict)| < 0x1_0000_0000
  {
    var n, text := FieldValue(|dict|), Text(dict);
    LengthFits(|dict|);
    FieldIsRead(|dict|);
    ReadsPreamble(Version(|dict|), LengthField(|dict|), text, data, n);
    if n == |text| {
      assert text[..n] == text && text[n..] + data == data;
    } else {
      assert |text[..n]| < |text|;
    }
  }

  lemma WrittenHeaderIsReadBack(h: Header, dict: string, data: string)
    requires Representable(h) && dict == HeaderDict(h) && |Text(dict)| < 0x1_0000_0000
    ensures var read := ReadFrom(Preamble(dict) + data);
      read.text.Ok? && read.rest == data && (HeaderOf(read.text.value) == Ok(h) <==> ValidType(h.dtype))
  {
    TextIsReadBack(dict, data);
    HeaderRoundTrip(h, Padding(|dict|));
  }

  method ReadAndParse(input: InStream) returns (header: Result<Header>)
    modifies input
    ensures var read := ReadFrom(old(input.rest));
      input.rest == read.rest && header == if read.text.Ok? then HeaderOf(read.text.value) else Err(read.text.error)
  {
    var text := ReadHeader(input);
    if text.Err? {
      return Err(text.error);
    }
    header := ParseHeader(text.value);
  }

  /** Writing a header and reading it gives the header back, with the data left to be read. */
  method WriteThenRead(h: Header, data: string) returns (header: Result<Header>, left: string)
    requires Representable(h) && |Text(HeaderDict(h))| < 0x1_0000_0000
    ensures header == Ok(h) <==> ValidType(h.dtype)
    ensures left == data
  {
    var out := new OutStream();
    WriteHeader(out, h);
    out.Write(data);
    ghost var dict := HeaderDict(h);
    NothingBefore(Preamble(dict));
    assert out.written == Preamble(dict) + data;
    WrittenHeaderIsReadBack(h, dict, data);
    var input := new InStream(out.written);
    header := ReadAndParse(input);
    left := input.rest;
  }
}
