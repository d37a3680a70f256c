/**
 `multipart/form-data` bodies and a reader for them (section 5.1.1 of RFC 2046,
 section 4 of RFC 7578). The encoder only copies and compares bytes, so bytes are
 written as characters here and the theorems hold for any alphabet.
 */
module Multipart {
  import opened Common
  import opened FormData
  import opened Scan

  // ------------------------------------------------------------------ encoder

  /** `append_escaped_quoted`. */
  function EscapedByte(b: char): Bytes {
    match b
    case '"' => "\\\""
    case '\\' => "\\\\"
    case '\r' => ""
    case '\n' => ""
    case c => [c]
  }

  function Escaped(s: Bytes): Bytes {
    if s == [] then [] else EscapedByte(s[0]) + Escaped(s[1..])
  }

  function Disposition(): Bytes { "Content-Disposition: form-data; name=\"" }
  function FilenameStart(): Bytes { "; filename=\"" }
  function ContentTypeStart(): Bytes { "\r\nContent-Type: " }
  function Crlf(): Bytes { "\r\n" }
  function BlankLine(): Bytes { "\r\n\r\n" }
  function Quote(): Bytes { "\"" }
  function Dashes(): Bytes { "--" }

  function Body(e: FormEntry): Bytes {
    match e.value
    case Text(text) => text
    case File(_, _, body) => body
  }

  /** The part's header lines, followed by `rest`. */
  function Header(e: FormEntry, rest: Bytes): Bytes {
    Disposition() + (Escaped(e.name) + (Quote() +
      match e.value
      case Text(_) => BlankLine() + rest
      case File(filename, contentType, _) =>
        FilenameStart() + (Escaped(filename) + (Quote() +
          (ContentTypeStart() + (contentType + (BlankLine() + rest)))))))
  }

  /** One part, followed by `rest`. */
  function Part(e: FormEntry, boundary: Bytes, rest: Bytes): Bytes {
    Dashes() + (boundary + (Crlf() + Header(e, Body(e) + (Crlf() + rest))))
  }

  /** `encode_multipart`. */
  function Encode(entries: seq<FormEntry>, boundary: Bytes): Bytes {
    if entries == [] then Dashes() + (boundary + (Dashes() + Crlf()))
    else Part(entries[0], boundary, Encode(entries[1..], boundary))
  }

  method AppendEscapedQuoted(s: Bytes, out: Bytes) returns (r: Bytes)
    ensures r == out + Escaped(s)
  {
    r := out;
    for i := 0 to |s|
      invariant r + Escaped(s[i..]) == out + Escaped(s)
    {
      assert s[i..][1..] == s[i + 1..];
      ghost var before := r;
      if s[i] == '"' || s[i] == '\\' {
        r := r + ['\\'];
        r := r + [s[i]];
      } else if s[i] == '\r' || s[i] == '\n' {
      } else {
        r := r + [s[i]];
      }
      assert r == before + EscapedByte(s[i]);
      Assoc(before, EscapedByte(s[i]), Escaped(s[i + 1..]));
    }
  }

  /** Append `bytes`; `goal` is the whole output wanted, `rest` what remains to be appended. */
  method Extend(out: Bytes, bytes: Bytes, ghost rest: Bytes, ghost goal: Bytes) returns (r: Bytes)
    requires out + (bytes + rest) == goal
    ensures r == out + bytes && r + rest == goal
  {
    r := out + bytes;
    Assoc(out, bytes, rest);
  }

  method AppendHeader(e: FormEntry, out: Bytes, ghost rest: Bytes, ghost goal: Bytes) returns (r: Bytes)
    requires out + Header(e, rest) == goal
    ensures r + rest == goal
  {
    ghost var afterType := BlankLine() + rest;
    ghost var fields := match e.value
                        case Text(_) => afterType
                        case File(filename, contentType, _) =>
                          FilenameStart() + (Escaped(filename) + (Quote() +
                            (ContentTypeStart() + (contentType + afterType))));
    r := Extend(out, Disposition(), Escaped(e.name) + (Quote() + fields), goal);
    ghost var before := r;
    r := AppendEscapedQuoted(e.name, r);
    Assoc(before, Escaped(e.name), Quote() + fields);
    r := Extend(r, Quote(), fields, goal);
    if e.value.File? {
      r := AppendFileFields(e.value.filename, e.value.contentType, r, afterType, goal);
    }
    r := Extend(r, BlankLine(), rest, goal);
  }

  method AppendFileFields(filename: Bytes, contentType: Bytes, out: Bytes, ghost rest: Bytes, ghost goal: Bytes)
    returns (r: Bytes)
    requires out + (FilenameStart() + (Escaped(filename) + (Quote() + (ContentTypeStart() + (contentType + rest)))))
          == goal
    ensures r + rest == goal
  {
    ghost var afterName := Quote() + (ContentTypeStart() + (contentType + rest));
    r := Extend(out, FilenameStart(), Escaped(filename) + afterName, goal);
    ghost var before := r;
    r := AppendEscapedQuoted(filename, r);
    Assoc(before, Escaped(filename), afterName);
    r := Extend(r, Quote(), ContentTypeStart() + (contentType + rest), goal);
    r := Extend(r, ContentTypeStart(), contentType + rest, goal);
    r := Extend(r, contentType, rest, goal);
  }

  method EncodeMultipart(entries: seq<FormEntry>, boundary: Bytes) returns (out: Bytes)
    ensures out == Encode(entries, boundary)
  {
    out := [];
    ghost var goal := Encode(entries, boundary);
    for i := 0 to |entries|
      invariant out + Encode(entries[i..], boundary) == goal
    {
      assert entries[i..][1..] == entries[i + 1..];
      var e := entries[i];
      ghost var next := Crlf() + Encode(entries[i + 1..], boundary);
      ghost var lines := Header(e, Body(e) + next);
      out := Extend(out, Dashes(), boundary + (Crlf() + lines), goal);
      out := Extend(out, boundary, Crlf() + lines, goal);
      out := Extend(out, Crlf(), lines, goal);
      out := AppendHeader(e, out, Body(e) + next, goal);
      out := Extend(out, Body(e), next, goal);
      out := Extend(out, Crlf(), Encode(entries[i + 1..], boundary), goal);
    }
    out := Extend(out, Dashes(), boundary + (Dashes() + Crlf()), goal);
    out := Extend(out, boundary, Dashes() + Crlf(), goal);
    out := out + Dashes() + Crlf();
  }

  // ------------------------------------------------------------------- reader

  /** The content of a quoted-string up to its closing quote, and what follows the quote. */
  function ReadQuoted(s: Bytes): Option<(Bytes, Bytes)> {
    if s == [] then None
    else if s[0] == '"' then Some(([], s[1..]))
    else if s[0] == '\\' then
      if |s| < 2 then None
      else
        var r := ReadQuoted(s[2..]);
        if r.None? then None else Some(([s[1]] + r.value.0, r.value.1))
    else
      var r := ReadQuoted(s[1..]);
      if r.None? then None else Some(([s[0]] + r.value.0, r.value.1))
  }

  /** The header lines of one part and the bytes after the blank line; the entry's body is left empty. */
  function ReadHeader(s: Bytes): Option<(FormEntry, Bytes)> {
    var a := Expect(s, Disposition());
    if a.None? then None else
    var name := ReadQuoted(a.value);
    if name.None? then None else
    var text := Expect(name.value.1, BlankLine());
    if text.Some? then Some((FormEntry(name.value.0, Text([])), text.value))
    else ReadFileHeader(name.value.0, name.value.1)
  }

  function ReadFileHeader(name: Bytes, s: Bytes): Option<(FormEntry, Bytes)> {
    var b := Expect(s, FilenameStart());
    if b.None? then None else
    var filename := ReadQuoted(b.value);
    if filename.None? then None else
    var c := Expect(filename.value.1, ContentTypeStart());
    if c.None? then None else
    var contentType := ReadUntil(c.value, BlankLine());
    if contentType.None? then None
    else Some((FormEntry(name, File(filename.value.0, contentType.value.0, [])), contentType.value.1))
  }

  function WithBody(e: FormEntry, body: Bytes): FormEntry {
    match e.value
    case Text(_) => e.(value := Text(body))
    case File(filename, contentType, _) => e.(value := File(filename, contentType, body))
  }

  function Dashed(boundary: Bytes): Bytes { Dashes() + boundary }

  function Delimiter(boundary: Bytes): Bytes { Crlf() + Dashed(boundary) }

  /**
   The body up to the first delimiter and what follows it. The delimiter takes its CRLF from
   the line before, so the search starts at the CRLF that ends the blank line; a delimiter
   found right there leaves no body.
   */
  function ReadBody(s: Bytes, boundary: Bytes): Option<(Bytes, Bytes)> {
    var found := ReadUntil(Crlf() + s, Delimiter(boundary));
    if found.None? then None
    else Some((if |found.value.0| < 2 then [] else found.value.0[2..], found.value.1))
  }

  /** Header, then body; what is left starts after the delimiter. */
  function ReadPart(s: Bytes, boundary: Bytes): Option<(FormEntry, Bytes)> {
    var header := ReadHeader(s);
    if header.None? then None else
    var body := ReadBody(header.value.1, boundary);
    if body.None? then None else Some((WithBody(header.value.0, body.value.0), body.value.1))
  }

  /** Parts following a delimiter that has just been consumed. */
  function ReadParts(s: Bytes, boundary: Bytes): Option<seq<FormEntry>>
    decreases |s|
  {
    if s == Dashes() + Crlf() then Some([])
    else
      var start := Expect(s, Crlf());
      if start.None? then None else
      var part := ReadPart(start.value, boundary);
      if part.None? || |part.value.1| >= |s| then None else
      var rest := ReadParts(part.value.1, boundary);
      if rest.None? then None else Some([part.value.0] + rest.value)
  }

  function Read(s: Bytes, boundary: Bytes): Option<seq<FormEntry>> {
    var start := Expect(s, Dashed(boundary));
    if start.None? then None else ReadParts(start.value, boundary)
  }

  // -------------------------------------------------------------- the theorem

  predicate NoBreaks(s: Bytes) { forall i :: 0 <= i < |s| ==> s[i] != '\r' && s[i] != '\n' }

  /** Names and filenames lose their line breaks; nothing else changes. */
  function Stripped(s: Bytes): Bytes {
    if s == [] then []
    else (if s[0] == '\r' || s[0] == '\n' then [] else [s[0]]) + Stripped(s[1..])
  }

  function Clean(e: FormEntry): FormEntry {
    match e.value
    case Text(_) => e.(name := Stripped(e.name))
    case File(filename, contentType, body) =>
      FormEntry(Stripped(e.name), File(Stripped(filename), contentType, body))
  }

  function CleanAll(entries: seq<FormEntry>): seq<FormEntry> {
    if entries == [] then [] else [Clean(entries[0])] + CleanAll(entries[1..])
  }

  predicate Typed(e: FormEntry) { e.value.File? ==> NoBreaks(e.value.contentType) }

  /** Reading past one escaped byte. */
  lemma {:induction false} EscapedByteReads(b: char, tail: Bytes)
    requires ReadQuoted(tail).Some?
    ensures ReadQuoted(EscapedByte(b) + tail) ==
            var (name, rest) := ReadQuoted(tail).value;
            Some(((if b == '\r' || b == '\n' then [] else [b]) + name, rest))
  {
    var q := EscapedByte(b) + tail;
    if b == '"' || b == '\\' {
      assert q[0] == '\\' && q[1] == b && q[2..] == tail;
    } else if b == '\r' || b == '\n' {
      assert q == tail;
      assert [] + ReadQuoted(tail).value.0 == ReadQuoted(tail).value.0;
    } else {
      assert q[0] == b && q[1..] == tail;
    }
  }

  lemma {:induction false} QuotedReads(s: Bytes, rest: Bytes)
    ensures ReadQuoted(Escaped(s) + (Quote() + rest)) == Some((Stripped(s), rest))
  {
    var end := Quote() + rest;
    if s == [] {
      assert [] + end == end && end[1..] == rest;
    } else {
      QuotedReads(s[1..], rest);
      EscapedByteReads(s[0], Escaped(s[1..]) + end);
      Assoc(EscapedByte(s[0]), Escaped(s[1..]), end);
    }
  }

  lemma BlankLineReads(contentType: Bytes, rest: Bytes)
    requires NoBreaks(contentType)
    ensures ReadUntil(contentType + (BlankLine() + rest), BlankLine()) == Some((contentType, rest))
  {
    var s := contentType + (BlankLine() + rest);
    assert s[|contentType|..|contentType| + 4] == BlankLine();
    forall i: nat | i < |contentType|
      ensures !OccursAt(s, BlankLine(), i)
    {
      assert s[i] == contentType[i];
      assert i + 4 <= |s| ==> s[i..i + 4][0] == s[i];
    }
    FindFirst(s, BlankLine(), 0, |contentType|);
    assert s[..|contentType|] == contentType && s[|contentType| + 4..] == rest;
  }

  lemma {:induction false} FileHeaderReads(name: Bytes, filename: Bytes, contentType: Bytes, rest: Bytes)
    requires NoBreaks(contentType)
    ensures ReadFileHeader(name, FilenameStart() + (Escaped(filename) + (Quote() +
                                 (ContentTypeStart() + (contentType + (BlankLine() + rest))))))
            == Some((FormEntry(name, File(Stripped(filename), contentType, [])), rest))
  {
    var afterType := contentType + (BlankLine() + rest);
    var afterFile := ContentTypeStart() + afterType;
    ExpectReads(FilenameStart(), Escaped(filename) + (Quote() + afterFile));
    QuotedReads(filename, afterFile);
    ExpectReads(ContentTypeStart(), afterType);
    BlankLineReads(contentType, rest);
  }

  lemma HeaderReads(e: FormEntry, rest: Bytes)
    requires Typed(e)
    ensures ReadHeader(Header(e, rest)) == Some((WithBody(Clean(e), []), rest))
  {
    match e.value
    case Text(_) =>
      var afterName := BlankLine() + rest;
      ExpectReads(Disposition(), Escaped(e.name) + (Quote() + afterName));
      QuotedReads(e.name, afterName);
      ExpectReads(BlankLine(), rest);
    case File(filename, contentType, _) =>
      var afterName := FilenameStart() + (Escaped(filename) + (Quote() +
                         (ContentTypeStart() + (contentType + (BlankLine() + rest)))));
      ExpectReads(Disposition(), Escaped(e.name) + (Quote() + afterName));
      QuotedReads(e.name, afterName);
      assert afterName[0] == ';' && BlankLine()[0] == '\r';
      FileHeaderReads(Stripped(e.name), filename, contentType, rest);
  }

  lemma DelimiterShape(boundary: Bytes)
    requires NoBreaks(boundary)
    ensures Unbordered(Delimiter(boundary))
  {
    var d := Delimiter(boundary);
    forall k | 0 < k < |d|
      ensures d[k] != '\r'
    {
      if k >= 4 {
        assert d[k] == boundary[k - 4];
      }
    }
  }

  /** Some line of the body, the first included, starts with the dashed boundary. */
  ghost predicate Clashes(body: Bytes, boundary: Bytes) {
    Contains(Crlf() + body, Delimiter(boundary))
  }

  /** A body reads back if and only if none of its lines is a delimiter line; otherwise it is cut short. */
  lemma BodyReads(body: Bytes, boundary: Bytes, rest: Bytes)
    requires NoBreaks(boundary)
    ensures !Clashes(body, boundary) ==>
              ReadBody(body + (Delimiter(boundary) + rest), boundary) == Some((body, rest))
    ensures Clashes(body, boundary) ==>
              var r := ReadBody(body + (Delimiter(boundary) + rest), boundary);
              r.Some? && |r.value.0| < |body| && |r.value.1| <= |body + (Delimiter(boundary) + rest)|
  {
    var d, line := Delimiter(boundary), Crlf() + body;
    DelimiterShape(boundary);
    Assoc(Crlf(), body, d + rest);
    UntilReads(line, d, rest);
    UntilShorter(line + (d + rest), d);
    if Clashes(body, boundary) {
      var k :| 0 <= k <= |line| && OccursAt(line, d, k);
      assert |body| >= 2;
    } else {
      assert line[2..] == body;
    }
  }

  /** One part reads back, with the body it had if and only if that body holds no delimiter line. */
  lemma PartReads(e: FormEntry, boundary: Bytes, rest: Bytes)
    requires NoBreaks(boundary) && Typed(e)
    ensures !Clashes(Body(e), boundary) ==>
              ReadPart(Header(e, Body(e) + (Delimiter(boundary) + rest)), boundary) == Some((Clean(e), rest))
    ensures Clashes(Body(e), boundary) ==>
              var part := ReadPart(Header(e, Body(e) + (Delimiter(boundary) + rest)), boundary);
              && part.Some? && |Body(part.value.0)| < |Body(e)|
              && |part.value.1| <= |Body(e) + (Delimiter(boundary) + rest)|
  {
    HeaderReads(e, Body(e) + (Delimiter(boundary) + rest));
    BodyReads(Body(e), boundary, rest);
  }

  /** What follows the first delimiter of an encoding. */
  function Tail(entries: seq<FormEntry>, boundary: Bytes): Bytes {
    if entries == [] then Dashes() + Crlf()
    else Crlf() + Header(entries[0], Body(entries[0]) + (Delimiter(boundary) + Tail(entries[1..], boundary)))
  }

  lemma {:induction false} EncodeTail(entries: seq<FormEntry>, boundary: Bytes)
    ensures Encode(entries, boundary) == Dashed(boundary) + Tail(entries, boundary)
  {
    Assoc(Dashes(), boundary, Tail(entries, boundary));
    if entries != [] {
      EncodeTail(entries[1..], boundary);
      Assoc(Crlf(), Dashed(boundary), Tail(entries[1..], boundary));
    }
  }

  ghost predicate Separable(entries: seq<FormEntry>, boundary: Bytes) {
    forall i :: 0 <= i < |entries| ==> !Clashes(Body(entries[i]), boundary)
  }

  ghost predicate AllTyped(entries: seq<FormEntry>) {
    forall i :: 0 <= i < |entries| ==> Typed(entries[i])
  }

  lemma HeaderLonger(e: FormEntry, rest: Bytes)
    ensures |Header(e, rest)| >= |rest|
  {
  }

  /** How the reader treats the first part, given how that part reads. */
  lemma {:induction false} ReadPartsStep(inner: Bytes, boundary: Bytes)
    ensures var part := ReadPart(inner, boundary);
            part.Some? && |part.value.1| <= |inner| ==>
              ReadParts(Crlf() + inner, boundary) ==
              var rest := ReadParts(part.value.1, boundary);
              if rest.None? then None else Some([part.value.0] + rest.value)
  {
    ExpectReads(Crlf(), inner);
    assert (Crlf() + inner)[0] == '\r' && (Dashes() + Crlf())[0] == '-';
  }

  lemma {:induction false} TailReads(entries: seq<FormEntry>, boundary: Bytes)
    requires NoBreaks(boundary) && AllTyped(entries)
    ensures ReadParts(Tail(entries, boundary), boundary) == Some(CleanAll(entries)) <==> Separable(entries, boundary)
  {
    if entries != [] {
      var e, rest := entries[0], Tail(entries[1..], boundary);
      var body := Body(e) + (Delimiter(boundary) + rest);
      var inner := Header(e, body);
      HeaderLonger(e, body);
      PartReads(e, boundary, rest);
      ReadPartsStep(inner, boundary);
      TailStep(entries, boundary);
      TailReads(entries[1..], boundary);
      ConsEqual(ReadPart(inner, boundary).value.0, ReadParts(ReadPart(inner, boundary).value.1, boundary), entries);
    }
  }

  lemma {:induction false} ConsEqual(head: FormEntry, rest: Option<seq<FormEntry>>, entries: seq<FormEntry>)
    requires entries != []
    ensures rest.Some? ==>
              ([head] + rest.value == CleanAll(entries)
               <==> head == Clean(entries[0]) && rest.value == CleanAll(entries[1..]))
  {
    if rest.Some? {
      var whole := [head] + rest.value;
      assert whole[0] == head && whole[1..] == rest.value;
      assert CleanAll(entries)[1..] == CleanAll(entries[1..]);
    }
  }

  lemma TailStep(entries: seq<FormEntry>, boundary: Bytes)
    requires entries != []
    ensures Separable(entries, boundary) <==>
            !Clashes(Body(entries[0]), boundary) && Separable(entries[1..], boundary)
    ensures Body(Clean(entries[0])) == Body(entries[0])
    ensures AllTyped(entries) ==> AllTyped(entries[1..])
  {
    assert forall i :: 0 <= i < |entries[1..]| ==> entries[1..][i] == entries[i + 1];
    if !Clashes(Body(entries[0]), boundary) && Separable(entries[1..], boundary) {
      forall i | 0 <= i < |entries|
        ensures !Clashes(Body(entries[i]), boundary)
      {
        assert i > 0 ==> entries[1..][i - 1] == entries[i];
      }
    }
  }

  /**
   Reading an encoded body back yields the entries, with names and filenames stripped of
   line breaks, exactly when no line of a body starts with "--" boundary.
   */
  lemma {:induction false} ReadBackExact(entries: seq<FormEntry>, boundary: Bytes)
    requires NoBreaks(boundary) && AllTyped(entries)
    ensures Read(Encode(entries, boundary), boundary) == Some(CleanAll(entries)) <==> Separable(entries, boundary)
  {
    EncodeTail(entries, boundary);
    ExpectReads(Dashed(boundary), Tail(entries, boundary));
    TailReads(entries, boundary);
  }

  lemma ClashContainsDashed(body: Bytes, boundary: Bytes)
    requires Clashes(body, boundary)
    ensures Contains(body, Dashed(boundary))
  {
    var d, line := Delimiter(boundary), Crlf() + body;
    var k :| 0 <= k <= |line| && OccursAt(line, d, k);
    assert d[2..] == Dashed(boundary);
    assert body[k..k + |d| - 2] == line[k + 2..k + |d|] == line[k..k + |d|][2..];
    assert OccursAt(body, Dashed(boundary), k);
  }

  /** The documented obligation on callers, no "--boundary" inside any body, is enough. */
  lemma {:induction false} ReadBack(entries: seq<FormEntry>, boundary: Bytes)
    requires NoBreaks(boundary) && AllTyped(entries)
    requires forall i :: 0 <= i < |entries| ==> !Contains(Body(entries[i]), Dashed(boundary))
    ensures Read(Encode(entries, boundary), boundary) == Some(CleanAll(entries))
  {
    forall i | 0 <= i < |entries|
      ensures !Clashes(Body(entries[i]), boundary)
    {
      if Clashes(Body(entries[i]), boundary) {
        ClashContainsDashed(Body(entries[i]), boundary);
      }
    }
    ReadBackExact(entries, boundary);
  }

  /**
   A text value that is the dashed boundary itself holds no whole delimiter, yet with the
   blank line before it makes one: such an entry does not read back.
   */
  lemma {:induction false} FirstLineClashes(name: Bytes, boundary: Bytes)
    requires NoBreaks(boundary)
    ensures !Contains(Dashed(boundary), Delimiter(boundary))
    ensures var entries := [FormEntry(name, Text(Dashed(boundary)))];
            Read(Encode(entries, boundary), boundary) != Some(CleanAll(entries))
  {
    var body, d := Dashed(boundary), Delimiter(boundary);
    assert |d| == |body| + 2;
    assert (Crlf() + body)[0..0 + |d|] == d && OccursAt(Crlf() + body, d, 0);
    var entries := [FormEntry(name, Text(body))];
    assert Clashes(Body(entries[0]), boundary);
    ReadBackExact(entries, boundary);
  }

  /** But a dashed boundary later in a line does no harm, so the documented obligation is not necessary. */
  lemma {:induction false} MidLineReads(name: Bytes, boundary: Bytes)
    requires NoBreaks(boundary)
    ensures var entries := [FormEntry(name, Text("a" + Dashed(boundary)))];
            && Contains(Body(entries[0]), Dashed(boundary))
            && Read(Encode(entries, boundary), boundary) == Some(CleanAll(entries))
  {
    var body, d := "a" + Dashed(boundary), Delimiter(boundary);
    assert body[1..1 + |Dashed(boundary)|] == Dashed(boundary) && OccursAt(body, Dashed(boundary), 1);
    var line := Crlf() + body;
    forall k | 0 <= k <= |line|
      ensures !OccursAt(line, d, k)
    {
      if k + |d| <= |line| {
        assert k <= 1;
        assert line[k..k + |d|][2 - k] == line[2] == 'a';
        assert k == 0 ==> d[2] == '-';
        assert k == 1 ==> d[1] == '\n';
      }
    }
    var entries := [FormEntry(name, Text(body))];
    assert !Clashes(Body(entries[0]), boundary);
    ReadBackExact(entries, boundary);
  }

  /** So encodings of separable entry lists collide only if the lists agree up to line breaks in names. */
  lemma {:induction false} EncodeInjective(a: seq<FormEntry>, b: seq<FormEntry>, boundary: Bytes)
    requires NoBreaks(boundary) && AllTyped(a) && AllTyped(b)
    requires Separable(a, boundary) && Separable(b, boundary)
    requires Encode(a, boundary) == Encode(b, boundary)
    ensures CleanAll(a) == CleanAll(b)
  {
    ReadBackExact(a, boundary);
    ReadBackExact(b, boundary);
  }

  // ------------------------------------------------------------ the very bytes

  lemma Join3(a: Bytes, b: Bytes, c: Bytes, rest: Bytes)
    ensures a + (b + (c + rest)) == a + b + c + rest
  {
  }

  lemma Join5(a: Bytes, b: Bytes, c: Bytes, d: Bytes, e: Bytes, rest: Bytes)
    ensures a + (b + (c + (d + (e + rest)))) == a + b + c + d + e + rest
  {
    Join3(a, b, c, d + (e + rest));
    Join3(a + b + c, d, e, rest);
  }

  lemma Join8(a: Bytes, b: Bytes, c: Bytes, d: Bytes, e: Bytes, f: Bytes, g: Bytes, h: Bytes, rest: Bytes)
    ensures a + (b + (c + (d + (e + (f + (g + (h + rest))))))) == a + b + c + d + e + f + g + h + rest
  {
    var late := f + (g + (h + rest));
    Join3(a, b, c, d + (e + late));
    Join3(a + b + c, d, e, late);
    Join3(a + b + c + d + e, f, g, h + rest);
    Assoc(a + b + c + d + e + f + g, h, rest);
  }

  /** A text part, byte for byte. */
  lemma {:induction false} TextPartSpelled(name: Bytes, text: Bytes, others: seq<FormEntry>, boundary: Bytes)
    ensures Encode([FormEntry(name, Text(text))] + others, boundary) ==
            "--" + boundary + "\r\nContent-Disposition: form-data; name=\"" + Escaped(name) + "\"\r\n\r\n"
            + text + "\r\n" + Encode(others, boundary)
  {
    var e := FormEntry(name, Text(text));
    assert ([e] + others)[1..] == others;
    var rest := Encode(others, boundary);
    var open := "\r\nContent-Disposition: form-data; name=\"";
    assert Crlf() + Disposition() == open && Quote() + BlankLine() == "\"\r\n\r\n";
    var tail := text + (Crlf() + rest);
    Assoc(Quote(), BlankLine(), tail);
    Assoc(Crlf(), Disposition(), Escaped(name) + (Quote() + (BlankLine() + tail)));
    Join3(Dashes(), boundary, open, Escaped(name) + ("\"\r\n\r\n" + tail));
    Join5(Dashes() + boundary + open, Escaped(name), "\"\r\n\r\n", text, Crlf(), rest);
  }

  /** A file part, byte for byte. */
  lemma {:induction false} FilePartSpelled(
      name: Bytes, filename: Bytes, contentType: Bytes, body: Bytes, others: seq<FormEntry>, boundary: Bytes)
    ensures Encode([FormEntry(name, File(filename, contentType, body))] + others, boundary) ==
            "--" + boundary + "\r\nContent-Disposition: form-data; name=\"" + Escaped(name)
            + "\"; filename=\"" + Escaped(filename) + "\"\r\nContent-Type: " + contentType + "\r\n\r\n"
            + body + "\r\n" + Encode(others, boundary)
  {
    var e := FormEntry(name, File(filename, contentType, body));
    assert ([e] + others)[1..] == others;
    var rest := Encode(others, boundary);
    var open, next, kind := "\r\nContent-Disposition: form-data; name=\"", "\"; filename=\"", "\"\r\nContent-Type: ";
    assert Crlf() + Disposition() == open && Quote() + FilenameStart() == next && Quote() + ContentTypeStart() == kind;
    var typed := contentType + (BlankLine() + (body + (Crlf() + rest)));
    var file := Escaped(filename) + (kind + typed);
    Assoc(Quote(), ContentTypeStart(), typed);
    Assoc(Quote(), FilenameStart(), file);
    Assoc(Crlf(), Disposition(), Escaped(name) + (next + file));
    Join3(Dashes(), boundary, open, Escaped(name) + (next + file));
    Join8(Dashes() + boundary + open, Escaped(name), next, Escaped(filename), kind, contentType, BlankLine(), body,
          Crlf() + rest);
    Assoc(Dashes() + boundary + open + Escaped(name) + next + Escaped(filename) + kind + contentType + BlankLine()
          + body, Crlf(), rest);
  }

  /** The closing delimiter, and what escaping does to each byte of a name. */
  lemma {:induction false} ClosingSpelled(boundary: Bytes, b: char)
    ensures Encode([], boundary) == "--" + boundary + "--\r\n"
    ensures Escaped([b]) == if b == '"' || b == '\\' then ['\\', b] else if b == '\r' || b == '\n' then [] else [b]
  {
    Assoc(Dashes(), boundary, Dashes() + Crlf());
    assert Dashes() + Crlf() == "--\r\n";
    assert [b][1..] == [] && EscapedByte(b) + [] == EscapedByte(b);
  }
}
