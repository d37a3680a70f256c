/**
 `application/x-www-form-urlencoded` output, read back with the repository's own
 percent-decoder.
 */
module Urlencoded {
  import opened Common
  import opened FormData

  // ------------------------------------------------------------------ encoder

  predicate Unescaped(c: char) {
    c in "*-._" || '0' <= c <= '9' || 'A' <= c <= 'Z' || 'a' <= c <= 'z'
  }

  function UpperHex(n: int): (c: char)
    requires 0 <= n < 16
    ensures '0' <= c <= '9' || 'A' <= c <= 'F'
    ensures HexDigit(c) == Some(n)
  {
    if n < 10 then ('0' as int + n) as char else ('A' as int + (n - 10)) as char
  }

  /** One byte of `urlencoded_byte_encode`. */
  function EncodeByte(c: char): Bytes
    requires c as int < 256
  {
    if c == ' ' then "+"
    else if Unescaped(c) then [c]
    else ['%', UpperHex(c as int / 16), UpperHex(c as int % 16)]
  }

  function EncodeBytes(s: Bytes): Bytes
    requires Octets(s)
  {
    if s == [] then [] else EncodeByte(s[0]) + EncodeBytes(s[1..])
  }

  predicate Encodable(e: FormEntry) { Octets(e.name) && Octets(TextualValue(e)) }

  function EncodePair(e: FormEntry): Bytes
    requires Encodable(e)
  {
    EncodeBytes(e.name) + ("=" + EncodeBytes(TextualValue(e)))
  }

  /** `encode_urlencoded`. */
  function Encode(entries: seq<FormEntry>): Bytes
    requires forall i :: 0 <= i < |entries| ==> Encodable(entries[i])
  {
    if entries == [] then []
    else if |entries| == 1 then EncodePair(entries[0])
    else EncodePair(entries[0]) + ("&" + Encode(entries[1..]))
  }

  method UrlencodedByteEncode(input: Bytes, out: Bytes) returns (r: Bytes)
    requires Octets(input)
    ensures r == out + EncodeBytes(input)
  {
    r := out;
    for i := 0 to |input|
      invariant r + EncodeBytes(input[i..]) == out + EncodeBytes(input)
    {
      assert input[i..][1..] == input[i + 1..];
      var b := input[i];
      ghost var before := r;
      if b == ' ' {
        r := r + ['+'];
      } else if Unescaped(b) {
        r := r + [b];
      } else {
        r := r + ['%'];
        r := r + [UpperHex(b as int / 16)];
        r := r + [UpperHex(b as int % 16)];
      }
      assert r == before + EncodeByte(b);
      Assoc(before, EncodeByte(b), EncodeBytes(input[i + 1..]));
    }
  }

  method AppendPair(e: FormEntry, out: Bytes) returns (r: Bytes)
    requires Encodable(e)
    ensures r == out + EncodePair(e)
  {
    r := UrlencodedByteEncode(e.name, out);
    r := r + ['='];
    r := UrlencodedByteEncode(TextualValue(e), r);
  }

  /** What is still to be written before the entry at position `i`. */
  ghost function Pending(entries: seq<FormEntry>, i: nat): Bytes
    requires i <= |entries| && forall i :: 0 <= i < |entries| ==> Encodable(entries[i])
  {
    if i == |entries| then [] else (if i > 0 then "&" else "") + Encode(entries[i..])
  }

  lemma PendingStep(entries: seq<FormEntry>, i: nat)
    requires i < |entries| && forall i :: 0 <= i < |entries| ==> Encodable(entries[i])
    ensures Pending(entries, i) == (if i > 0 then "&" else "") + (EncodePair(entries[i]) + Pending(entries, i + 1))
  {
    assert entries[i..][1..] == entries[i + 1..];
  }

  method EncodeUrlencoded(entries: seq<FormEntry>) returns (out: Bytes)
    requires forall i :: 0 <= i < |entries| ==> Encodable(entries[i])
    ensures out == Encode(entries)
  {
    out := [];
    for i := 0 to |entries|
      invariant out + Pending(entries, i) == Encode(entries)
    {
      PendingStep(entries, i);
      ghost var rest := Pending(entries, i + 1);
      Assoc(out, if i > 0 then "&" else "", EncodePair(entries[i]) + rest);
      if i > 0 {
        out := out + "&";
      } else {
        assert out + "" == out;
      }
      Assoc(out, EncodePair(entries[i]), rest);
      out := AppendPair(entries[i], out);
    }
  }

  // ----------------------------------------------------------- percent_decode

  function HexDigit(c: char): Option<int> {
    if '0' <= c <= '9' then Some(c as int - '0' as int)
    else if 'a' <= c <= 'f' then Some(c as int - 'a' as int + 10)
    else if 'A' <= c <= 'F' then Some(c as int - 'A' as int + 10)
    else None
  }

  predicate Escape(s: Bytes) {
    |s| > 2 && s[0] == '%' && HexDigit(s[1]).Some? && HexDigit(s[2]).Some?
  }

  function PercentDecode(s: Bytes): Bytes {
    if s == [] then []
    else if Escape(s) then
      [(16 * HexDigit(s[1]).value + HexDigit(s[2]).value) as char] + PercentDecode(s[3..])
    else [s[0]] + PercentDecode(s[1..])
  }

  lemma DecodeStep(bytes: Bytes, i: nat)
    requires i < |bytes|
    ensures Escape(bytes[i..]) <==>
            bytes[i] == '%' && i + 2 < |bytes| && HexDigit(bytes[i + 1]).Some? && HexDigit(bytes[i + 2]).Some?
    ensures PercentDecode(bytes[i..]) ==
            if Escape(bytes[i..]) then
              [(16 * HexDigit(bytes[i + 1]).value + HexDigit(bytes[i + 2]).value) as char]
              + PercentDecode(bytes[i + 3..])
            else [bytes[i]] + PercentDecode(bytes[i + 1..])
  {
    var rest := bytes[i..];
    assert rest[1..] == bytes[i + 1..];
    if |rest| > 2 {
      assert rest[3..] == bytes[i + 3..];
    }
  }

  method DecodePercent(bytes: Bytes) returns (out: Bytes)
    ensures out == PercentDecode(bytes)
  {
    out := [];
    var i := 0;
    while i < |bytes|
      invariant 0 <= i <= |bytes|
      invariant out + PercentDecode(bytes[i..]) == PercentDecode(bytes)
    {
      DecodeStep(bytes, i);
      if bytes[i] == '%' && i + 2 < |bytes| && HexDigit(bytes[i + 1]).Some? && HexDigit(bytes[i + 2]).Some? {
        var decoded := (16 * HexDigit(bytes[i + 1]).value + HexDigit(bytes[i + 2]).value) as char;
        Assoc(out, [decoded], PercentDecode(bytes[i + 3..]));
        out := out + [decoded];
        i := i + 3;
        continue;
      }
      Assoc(out, [bytes[i]], PercentDecode(bytes[i + 1..]));
      out := out + [bytes[i]];
      i := i + 1;
    }
  }

  // ------------------------------------------------------------------- reader

  function PlusToSpace(s: Bytes): Bytes {
    if s == [] then [] else [if s[0] == '+' then ' ' else s[0]] + PlusToSpace(s[1..])
  }

  function Decode(s: Bytes): Bytes { PercentDecode(PlusToSpace(s)) }

  /** The text before the first `separator` and, if there is one, the text after it. */
  function Cut(s: Bytes, separator: char): (Bytes, Option<Bytes>) {
    if s == [] then ([], None)
    else if s[0] == separator then ([], Some(s[1..]))
    else
      var r := Cut(s[1..], separator);
      ([s[0]] + r.0, r.1)
  }

  lemma {:induction false} CutShorter(s: Bytes, separator: char)
    ensures Cut(s, separator).1.Some? ==> |Cut(s, separator).1.value| < |s|
  {
    if s != [] {
      CutShorter(s[1..], separator);
    }
  }

  function ReadPair(s: Bytes): (Bytes, Bytes) {
    var r := Cut(s, '=');
    (Decode(r.0), if r.1.None? then [] else Decode(r.1.value))
  }

  /** Split at '&' dropping empty pieces, then at the first '='. */
  function Read(s: Bytes): seq<(Bytes, Bytes)>
    decreases |s|
  {
    if s == [] then []
    else
      CutShorter(s, '&');
      var r := Cut(s, '&');
      (if r.0 == [] then [] else [ReadPair(r.0)]) + (if r.1.None? then [] else Read(r.1.value))
  }

  function Pairs(entries: seq<FormEntry>): seq<(Bytes, Bytes)> {
    if entries == [] then [] else [(entries[0].name, TextualValue(entries[0]))] + Pairs(entries[1..])
  }

  // -------------------------------------------------------------- the theorem

  /** Neither separator survives encoding. */
  predicate Clean(s: Bytes) { '&' !in s && '=' !in s }

  lemma {:induction false} EncodedClean(s: Bytes)
    requires Octets(s)
    ensures Clean(EncodeBytes(s))
  {
    if s != [] {
      EncodedClean(s[1..]);
    }
  }

  lemma {:induction false} PlusAppend(a: Bytes, b: Bytes)
    ensures PlusToSpace(a + b) == PlusToSpace(a) + PlusToSpace(b)
  {
    if a == [] {
      assert a + b == b;
    } else {
      assert (a + b)[1..] == a[1..] + b;
      PlusAppend(a[1..], b);
    }
  }

  lemma {:induction false} ByteDecodes(c: char, rest: Bytes)
    requires c as int < 256
    ensures PercentDecode(PlusToSpace(EncodeByte(c)) + rest) == [c] + PercentDecode(rest)
  {
    var e := EncodeByte(c);
    if c == ' ' || Unescaped(c) {
      assert PlusToSpace(e) == [c];
      var s := [c] + rest;
      assert s[1..] == rest;
    } else {
      var h, l := UpperHex(c as int / 16), UpperHex(c as int % 16);
      assert e[1..] == [h, l] && e[1..][1..] == [l] && e[1..][1..][1..] == [];
      assert PlusToSpace([l]) == [l] && PlusToSpace([h, l]) == [h, l];
      assert PlusToSpace(e) == ['%', h, l];
      var s := ['%', h, l] + rest;
      assert Escape(s) && s[3..] == rest;
      assert 16 * HexDigit(h).value + HexDigit(l).value == c as int;
    }
  }

  /** Percent-decoding undoes the byte encoder on every byte string. */
  lemma {:induction false} BytesDecode(s: Bytes)
    requires Octets(s)
    ensures Decode(EncodeBytes(s)) == s
  {
    if s != [] {
      BytesDecode(s[1..]);
      PlusAppend(EncodeByte(s[0]), EncodeBytes(s[1..]));
      ByteDecodes(s[0], PlusToSpace(EncodeBytes(s[1..])));
      assert s == [s[0]] + s[1..];
    }
  }

  lemma {:induction false} CutAt(a: Bytes, separator: char, b: Bytes)
    requires separator !in a
    ensures Cut(a + ([separator] + b), separator) == (a, Some(b))
    ensures Cut(a, separator) == (a, None)
  {
    if a == [] {
      assert a + ([separator] + b) == [separator] + b;
      assert ([separator] + b)[1..] == b;
    } else {
      CutAt(a[1..], separator, b);
      assert a == [a[0]] + a[1..];
      assert (a + ([separator] + b))[1..] == a[1..] + ([separator] + b);
    }
  }

  lemma PairReads(e: FormEntry)
    requires Encodable(e)
    ensures EncodePair(e) != [] && '&' !in EncodePair(e)
    ensures ReadPair(EncodePair(e)) == (e.name, TextualValue(e))
  {
    EncodedClean(e.name);
    EncodedClean(TextualValue(e));
    CutAt(EncodeBytes(e.name), '=', EncodeBytes(TextualValue(e)));
    BytesDecode(e.name);
    BytesDecode(TextualValue(e));
  }

  /** Reading the encoded form returns exactly the (name, textual value) pairs. */
  lemma {:induction false} ReadBack(entries: seq<FormEntry>)
    requires forall i :: 0 <= i < |entries| ==> Encodable(entries[i])
    ensures Read(Encode(entries)) == Pairs(entries)
  {
    if entries != [] {
      var pair := EncodePair(entries[0]);
      PairReads(entries[0]);
      ReadBack(entries[1..]);
      CutAt(pair, '&', Encode(entries[1..]));
      if |entries| == 1 {
        assert entries[1..] == [];
      }
    }
  }

  lemma {:induction false} PairsAt(entries: seq<FormEntry>, i: nat)
    requires i < |entries|
    ensures |Pairs(entries)| == |entries|
    ensures Pairs(entries)[i].0 == entries[i].name
    ensures Pairs(entries)[i].1 ==
            match entries[i].value
            case Text(text) => text
            case File(filename, _, _) => filename
    decreases |entries|
  {
    if |entries| > 1 {
      PairsAt(entries[1..], if i == 0 then 0 else i - 1);
    }
  }

  /** The i-th pair read back: a text entry's name and text, a file entry's name and filename. */
  lemma {:induction false} PairReadBack(entries: seq<FormEntry>, i: nat)
    requires forall i :: 0 <= i < |entries| ==> Encodable(entries[i])
    requires i < |entries|
    ensures var read := Read(Encode(entries));
            && |read| == |entries| && read[i].0 == entries[i].name
            && read[i].1 ==
               match entries[i].value
               case Text(text) => text
               case File(filename, _, _) => filename
  {
    ReadBack(entries);
    PairsAt(entries, i);
  }

  /** The same field for this encoding: equal texts, or files with one filename. */
  predicate SameField(a: FormEntry, b: FormEntry) {
    && a.name == b.name
    && match a.value
       case Text(text) => b.value == Text(text)
       case File(filename, _, _) => b.value.File? && b.value.filename == filename
  }

  /** Content types and file contents leave no trace: lists that differ only in them encode alike. */
  lemma {:induction false} ContentsUnsent(a: seq<FormEntry>, b: seq<FormEntry>)
    requires forall i :: 0 <= i < |a| ==> Encodable(a[i])
    requires forall i :: 0 <= i < |b| ==> Encodable(b[i])
    requires |a| == |b| && forall i :: 0 <= i < |a| ==> SameField(a[i], b[i])
    ensures Encode(a) == Encode(b)
    decreases |a|
  {
    if a != [] {
      assert SameField(a[0], b[0]);
      ContentsUnsent(a[1..], b[1..]);
    }
  }

  // ---- the bytes themselves

  function UpperDigits(): string { "0123456789ABCDEF" }
  function LowerDigits(): string { "0123456789abcdef" }

  /** What each byte becomes: itself for letters, digits and four marks, a plus for a space, else its hex code. */
  lemma ByteExact(c: char)
    requires c as int < 256
    ensures EncodeByte(c) ==
            if c == ' ' then "+"
            else if 'a' <= c <= 'z' || 'A' <= c <= 'Z' || '0' <= c <= '9' || c in ['*', '-', '.', '_'] then [c]
            else ['%', UpperDigits()[c as int / 16], UpperDigits()[c as int % 16]]
  {
    UpperHexExact(c as int / 16);
    UpperHexExact(c as int % 16);
  }

  lemma UpperHexExact(n: int)
    requires 0 <= n < 16
    ensures UpperHex(n) == UpperDigits()[n]
  {
  }

  /** Both cases of hexadecimal digits are read, and nothing else. */
  lemma HexDigitExact(c: char)
    ensures forall v :: 0 <= v < 16 ==>
              (HexDigit(c) == Some(v) <==> c == UpperDigits()[v] || c == LowerDigits()[v])
    ensures HexDigit(c).Some? ==> 0 <= HexDigit(c).value < 16
  {
    forall v | 0 <= v < 16
      ensures HexDigit(c) == Some(v) <==> c == UpperDigits()[v] || c == LowerDigits()[v]
    {
      DigitTable(v);
    }
  }

  lemma DigitTable(v: int)
    requires 0 <= v < 16
    ensures UpperDigits()[v] == (if v < 10 then ('0' as int + v) as char else ('A' as int + v - 10) as char)
    ensures LowerDigits()[v] == (if v < 10 then ('0' as int + v) as char else ('a' as int + v - 10) as char)
  {
  }

  /** An escape in either case stands for its byte. */
  lemma {:induction false} EscapeDecodes(high: char, low: char, h: int, l: int, rest: Bytes)
    requires 0 <= h < 16 && 0 <= l < 16
    requires high == UpperDigits()[h] || high == LowerDigits()[h]
    requires low == UpperDigits()[l] || low == LowerDigits()[l]
    ensures PercentDecode(['%', high, low] + rest) == [(16 * h + l) as char] + PercentDecode(rest)
  {
    HexDigitExact(high);
    HexDigitExact(low);
    var s := ['%', high, low] + rest;
    assert s[3..] == rest;
  }

  /** Anything else, a stray percent sign included, is kept. */
  lemma {:induction false} OtherKept(c: char, rest: Bytes)
    requires c != '%' || |rest| < 2 || HexDigit(rest[0]).None? || HexDigit(rest[1]).None?
    ensures PercentDecode([c] + rest) == [c] + PercentDecode(rest)
  {
    var s := [c] + rest;
    assert s[1..] == rest;
  }

  /** Two lists with the same encoding have the same names and textual values, in the same order. */
  lemma {:induction false} EncodeInjective(a: seq<FormEntry>, b: seq<FormEntry>)
    requires forall i :: 0 <= i < |a| ==> Encodable(a[i])
    requires forall i :: 0 <= i < |b| ==> Encodable(b[i])
    ensures Encode(a) == Encode(b) <==> Pairs(a) == Pairs(b)
  {
    ReadBack(a);
    ReadBack(b);
    if Pairs(a) == Pairs(b) {
      PairsDetermine(a, b);
    }
  }

  lemma {:induction false} PairsDetermine(a: seq<FormEntry>, b: seq<FormEntry>)
    requires forall i :: 0 <= i < |a| ==> Encodable(a[i])
    requires forall i :: 0 <= i < |b| ==> Encodable(b[i])
    requires Pairs(a) == Pairs(b)
    ensures Encode(a) == Encode(b) && |a| == |b|
    decreases |a|
  {
    if a != [] && b != [] {
      assert Pairs(a)[0] == Pairs(b)[0];
      assert Pairs(a)[1..] == Pairs(a[1..]) && Pairs(b)[1..] == Pairs(b[1..]);
      PairsDetermine(a[1..], b[1..]);
    }
  }
}
