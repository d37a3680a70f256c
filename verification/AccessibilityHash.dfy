/**
 The fingerprint of an accessibility snapshot: the byte stream that is hashed, a reader
 for it, and the 64-bit FNV-1a state the stream drives.
 */
module AccessibilityHash {
  import opened Common

  type Bytes = seq<Byte>

  const TWO_64: nat := 0x1_0000_0000_0000_0000

  type U64 = x: int | 0 <= x < TWO_64
  type U32 = x: int | 0 <= x < 0x1_0000_0000

  /** A vector: its length is a machine word. */
  type Vec<T> = s: seq<T> | |s| < TWO_64 witness []

  // ------------------------------------------------------------ snapshots

  datatype TextInputType = NoInput | TextInput | Multiline | Number | Decimal | Telephone | Email | Url | SearchInput

  datatype TextInputAction = Newline | Done | Go | Next | Previous | Search | Send

  datatype TextSelection = TextSelection(baseOffset: U32, extentOffset: U32)

  /** Floating-point numbers stand as their 64 bits. */
  datatype Range = Range(current: U64, minimum: U64, maximum: U64, step: U64)

  datatype Rect = Rect(x: U64, y: U64, width: U64, height: U64)

  datatype Links = Links(
    id: U64, parentId: Option<U64>,
    controlsIds: Vec<U64>, describedByIds: Vec<U64>, detailsIds: Vec<U64>, ownsIds: Vec<U64>)

  datatype Wording = Wording(
    role: Vec<Byte>, labelText: Vec<Byte>, description: Vec<Byte>, value: Option<Vec<Byte>>,
    textSelection: Option<TextSelection>, multiline: bool,
    textInputType: Option<TextInputType>, textInputAction: Option<TextInputAction>)

  datatype Flags = Flags(
    focused: bool, disabled: bool, checked: Option<bool>, mixed: Option<bool>, selected: bool,
    expanded: Option<bool>, headingLevel: Option<Byte>, hidden: bool, liveRegion: bool, focusable: bool,
    actions: Vec<Vec<Byte>>)

  /** A node; its fields are grouped, in the order in which they are hashed. */
  datatype Node = Node(links: Links, wording: Wording, range: Option<Range>, bbox: Option<Rect>, flags: Flags)

  /** The hashed part of a snapshot. */
  datatype Snapshot = Snapshot(sourceGeneration: U64, width: U32, height: U32, truncated: bool, nodes: Vec<Node>)

  function TypeName(t: TextInputType): string {
    match t
    case NoInput => "none"
    case TextInput => "text"
    case Multiline => "multiline"
    case Number => "number"
    case Decimal => "decimal"
    case Telephone => "telephone"
    case Email => "email"
    case Url => "url"
    case SearchInput => "search"
  }

  function ActionName(a: TextInputAction): string {
    match a
    case Newline => "newline"
    case Done => "done"
    case Go => "go"
    case Next => "next"
    case Previous => "previous"
    case Search => "search"
    case Send => "send"
  }

  // ------------------------------------------------------------ writing

  /** `n` bytes of `v`, low byte first, before `rest`. */
  function PutLe(v: nat, n: nat, rest: Bytes): Bytes {
    if n == 0 then rest else [v % 256] + PutLe(v / 256, n - 1, rest)
  }

  function PutU64(v: U64, rest: Bytes): Bytes { PutLe(v, 8, rest) }

  function PutByte(b: Byte, rest: Bytes): Bytes { [b] + rest }

  function PutBool(b: bool, rest: Bytes): Bytes { [if b then 1 else 0] + rest }

  function PutStr(s: Vec<Byte>, rest: Bytes): Bytes { PutU64(|s|, s + rest) }

  function PutOption<T>(put: (T, Bytes) -> Bytes, o: Option<T>, rest: Bytes): Bytes {
    match o
    case None => [0] + rest
    case Some(x) => [1] + put(x, rest)
  }

  function PutEach<T>(put: (T, Bytes) -> Bytes, xs: seq<T>, rest: Bytes): Bytes {
    if xs == [] then rest else put(xs[0], PutEach(put, xs[1..], rest))
  }

  function PutVec<T>(put: (T, Bytes) -> Bytes, xs: Vec<T>, rest: Bytes): Bytes {
    PutU64(|xs|, PutEach(put, xs, rest))
  }

  function Ascii(s: string): (b: Bytes)
    requires forall i :: 0 <= i < |s| ==> s[i] as int < 128
    ensures |b| == |s|
  {
    if s == "" then [] else [s[0] as int] + Ascii(s[1..])
  }

  function PutType(t: TextInputType, rest: Bytes): Bytes { PutStr(Ascii(TypeName(t)), rest) }

  function PutAction(a: TextInputAction, rest: Bytes): Bytes { PutStr(Ascii(ActionName(a)), rest) }

  function PutSelection(s: TextSelection, rest: Bytes): Bytes {
    PutU64(s.baseOffset, PutU64(s.extentOffset, rest))
  }

  function PutRange(r: Range, rest: Bytes): Bytes {
    PutU64(r.current, PutU64(r.minimum, PutU64(r.maximum, PutU64(r.step, rest))))
  }

  function PutRect(r: Rect, rest: Bytes): Bytes {
    PutU64(r.x, PutU64(r.y, PutU64(r.width, PutU64(r.height, rest))))
  }

  function PutLinks(l: Links, rest: Bytes): Bytes {
    PutU64(l.id, PutOption(PutU64, l.parentId,
      PutVec(PutU64, l.controlsIds, PutVec(PutU64, l.describedByIds,
      PutVec(PutU64, l.detailsIds, PutVec(PutU64, l.ownsIds, rest))))))
  }

  function PutWording(w: Wording, rest: Bytes): Bytes {
    PutStr(w.role, PutStr(w.labelText, PutStr(w.description, PutOption(PutStr, w.value,
      PutOption(PutSelection, w.textSelection, PutBool(w.multiline,
      PutOption(PutType, w.textInputType, PutOption(PutAction, w.textInputAction, rest))))))))
  }

  function PutFlags(f: Flags, rest: Bytes): Bytes {
    PutBool(f.focused, PutBool(f.disabled, PutOption(PutBool, f.checked, PutOption(PutBool, f.mixed,
      PutBool(f.selected, PutOption(PutBool, f.expanded, PutOption(PutByte, f.headingLevel,
      PutBool(f.hidden, PutBool(f.liveRegion, PutBool(f.focusable, PutVec(PutStr, f.actions, rest)))))))))))
  }

  function PutNode(n: Node, rest: Bytes): Bytes {
    PutLinks(n.links, PutWording(n.wording, PutOption(PutRange, n.range, PutOption(PutRect, n.bbox,
      PutFlags(n.flags, rest)))))
  }

  /** Everything `refresh_generation` feeds to the hash, before `rest`. */
  function PutSnapshot(s: Snapshot, rest: Bytes): Bytes {
    PutU64(s.sourceGeneration, PutU64(s.width, PutU64(s.height, PutBool(s.truncated, PutVec(PutNode, s.nodes, rest)))))
  }

  // ------------------------------------------------------------ reading

  datatype Read<+T> = Got(value: T, rest: Bytes) | Bad {
    predicate IsFailure() { Bad? }

    function PropagateFailure<U>(): Read<U>
      requires Bad?
    {
      Bad
    }

    function Extract(): (T, Bytes)
      requires Got?
    {
      (value, rest)
    }
  }

  function ReadByte(s: Bytes): Read<Byte> {
    if s == [] then Bad else Got(s[0], s[1..])
  }

  function ReadBool(s: Bytes): Read<bool> {
    if s == [] || s[0] > 1 then Bad else Got(s[0] == 1, s[1..])
  }

  function ReadLe(n: nat, s: Bytes): Read<nat> {
    if n == 0 then Got(0, s)
    else if s == [] then Bad
    else
      var (high, rest) :- ReadLe(n - 1, s[1..]);
      Got(s[0] + 256 * high, rest)
  }

  function ReadU64(s: Bytes): Read<U64> {
    var (v, rest) :- ReadLe(8, s);
    if v < TWO_64 then Got(v, rest) else Bad
  }

  function ReadU32(s: Bytes): Read<U32> {
    var (v, rest) :- ReadLe(8, s);
    if v < 0x1_0000_0000 then Got(v, rest) else Bad
  }

  function ReadStr(s: Bytes): Read<Vec<Byte>> {
    var (n, rest) :- ReadU64(s);
    if n <= |rest| then Got(rest[..n], rest[n..]) else Bad
  }

  function ReadOption<T>(read: Bytes -> Read<T>, s: Bytes): Read<Option<T>> {
    if s == [] || s[0] > 1 then Bad
    else if s[0] == 0 then Got(None, s[1..])
    else
      var (x, rest) :- read(s[1..]);
      Got(Some(x), rest)
  }

  function ReadEach<T>(read: Bytes -> Read<T>, n: nat, s: Bytes): (r: Read<seq<T>>)
    ensures r.Got? ==> |r.value| == n
  {
    if n == 0 then Got([], s)
    else
      var (x, tail) :- read(s);
      var (xs, rest) :- ReadEach(read, n - 1, tail);
      Got([x] + xs, rest)
  }

  function ReadVec<T>(read: Bytes -> Read<T>, s: Bytes): Read<Vec<T>> {
    var (n, tail) :- ReadU64(s);
    var (xs, rest) :- ReadEach(read, n, tail);
    Got(xs, rest)
  }

  function Chars(b: Bytes): (s: string)
    ensures |s| == |b|
  {
    if b == [] then "" else [b[0] as char] + Chars(b[1..])
  }

  function ParseType(name: string): Option<TextInputType> {
    match name
    case "none" => Some(NoInput)
    case "text" => Some(TextInput)
    case "multiline" => Some(Multiline)
    case "number" => Some(Number)
    case "decimal" => Some(Decimal)
    case "telephone" => Some(Telephone)
    case "email" => Some(Email)
    case "url" => Some(Url)
    case "search" => Some(SearchInput)
    case _ => None
  }

  function ReadType(s: Bytes): Read<TextInputType> {
    var (name, rest) :- ReadStr(s);
    var parsed := ParseType(Chars(name));
    if parsed.Some? then Got(parsed.value, rest) else Bad
  }

  function ParseAction(name: string): Option<TextInputAction> {
    match name
    case "newline" => Some(Newline)
    case "done" => Some(Done)
    case "go" => Some(Go)
    case "next" => Some(Next)
    case "previous" => Some(Previous)
    case "search" => Some(Search)
    case "send" => Some(Send)
    case _ => None
  }

  function ReadAction(s: Bytes): Read<TextInputAction> {
    var (name, rest) :- ReadStr(s);
    var parsed := ParseAction(Chars(name));
    if parsed.Some? then Got(parsed.value, rest) else Bad
  }

  function ReadSelection(s: Bytes): Read<TextSelection> {
    var (base, s1) :- ReadU32(s);
    var (extent, rest) :- ReadU32(s1);
    Got(TextSelection(base, extent), rest)
  }

  function ReadRange(s: Bytes): Read<Range> {
    var (current, s1) :- ReadU64(s);
    var (minimum, s2) :- ReadU64(s1);
    var (maximum, s3) :- ReadU64(s2);
    var (step, rest) :- ReadU64(s3);
    Got(Range(current, minimum, maximum, step), rest)
  }

  function ReadRect(s: Bytes): Read<Rect> {
    var (x, s1) :- ReadU64(s);
    var (y, s2) :- ReadU64(s1);
    var (width, s3) :- ReadU64(s2);
    var (height, rest) :- ReadU64(s3);
    Got(Rect(x, y, width, height), rest)
  }

  function ReadLinks(s: Bytes): Read<Links> {
    var (id, s1) :- ReadU64(s);
    var (parentId, s2) :- ReadOption(ReadU64, s1);
    var (controlsIds, s3) :- ReadVec(ReadU64, s2);
    var (describedByIds, s4) :- ReadVec(ReadU64, s3);
    var (detailsIds, s5) :- ReadVec(ReadU64, s4);
    var (ownsIds, rest) :- ReadVec(ReadU64, s5);
    Got(Links(id, parentId, controlsIds, describedByIds, detailsIds, ownsIds), rest)
  }

  function ReadWording(s: Bytes): Read<Wording> {
    var (role, s1) :- ReadStr(s);
    var (labelText, s2) :- ReadStr(s1);
    var (description, s3) :- ReadStr(s2);
    var (value, s4) :- ReadOption(ReadStr, s3);
    var (selection, s5) :- ReadOption(ReadSelection, s4);
    var (multiline, s6) :- ReadBool(s5);
    var (inputType, s7) :- ReadOption(ReadType, s6);
    var (inputAction, rest) :- ReadOption(ReadAction, s7);
    Got(Wording(role, labelText, description, value, selection, multiline, inputType, inputAction), rest)
  }

  function ReadFlags(s: Bytes): Read<Flags> {
    var (focused, s1) :- ReadBool(s);
    var (disabled, s2) :- ReadBool(s1);
    var (checked, s3) :- ReadOption(ReadBool, s2);
    var (mixed, s4) :- ReadOption(ReadBool, s3);
    var (selected, s5) :- ReadBool(s4);
    var (expanded, s6) :- ReadOption(ReadBool, s5);
    var (headingLevel, s7) :- ReadOption(ReadByte, s6);
    var (hidden, s8) :- ReadBool(s7);
    var (liveRegion, s9) :- ReadBool(s8);
    var (focusable, s10) :- ReadBool(s9);
    var (actions, rest) :- ReadVec(ReadStr, s10);
    Got(Flags(focused, disabled, checked, mixed, selected, expanded, headingLevel,
              hidden, liveRegion, focusable, actions), rest)
  }

  function ReadNode(s: Bytes): Read<Node> {
    var (links, s1) :- ReadLinks(s);
    var (wording, s2) :- ReadWording(s1);
    var (range, s3) :- ReadOption(ReadRange, s2);
    var (bbox, s4) :- ReadOption(ReadRect, s3);
    var (flags, rest) :- ReadFlags(s4);
    Got(Node(links, wording, range, bbox, flags), rest)
  }

  function ReadSnapshot(s: Bytes): Read<Snapshot> {
    var (sourceGeneration, s1) :- ReadU64(s);
    var (width, s2) :- ReadU32(s1);
    var (height, s3) :- ReadU32(s2);
    var (truncated, s4) :- ReadBool(s3);
    var (nodes, rest) :- ReadVec(ReadNode, s4);
    Got(Snapshot(sourceGeneration, width, height, truncated, nodes), rest)
  }

  // ------------------------------------------------------------ reading undoes writing

  ghost predicate Inverse<T(!new)>(put: (T, Bytes) -> Bytes, read: Bytes -> Read<T>) {
    forall x, rest :: read(put(x, rest)) == Got(x, rest)
  }

  lemma {:induction false} LeReads(v: nat, n: nat, size: nat, rest: Bytes)
    requires v < size && size == Power256(n)
    ensures ReadLe(n, PutLe(v, n, rest)) == Got(v, rest)
    decreases n
  {
    if n > 0 {
      LeReads(v / 256, n - 1, Power256(n - 1), rest);
      assert PutLe(v, n, rest)[1..] == PutLe(v / 256, n - 1, rest);
    }
  }

  function Power256(n: nat): nat {
    if n == 0 then 1 else 256 * Power256(n - 1)
  }

  lemma U64Reads(v: U64, rest: Bytes)
    ensures ReadLe(8, PutU64(v, rest)) == Got(v, rest)
    ensures ReadU64(PutU64(v, rest)) == Got(v, rest)
  {
    assert Power256(2) == 0x1_0000;
    assert Power256(5) == 0x1_00_0000_0000;
    assert Power256(8) == TWO_64;
    LeReads(v, 8, TWO_64, rest);
  }

  lemma U64Inverse()
    ensures Inverse(PutU64, ReadU64)
  {
    forall x: U64, rest: Bytes
      ensures ReadU64(PutU64(x, rest)) == Got(x, rest)
    {
      U64Reads(x, rest);
    }
  }

  lemma StrReads(s: Vec<Byte>, rest: Bytes)
    ensures ReadStr(PutStr(s, rest)) == Got(s, rest)
  {
    U64Reads(|s|, s + rest);
  }

  lemma StrInverse()
    ensures Inverse(PutStr, ReadStr)
  {
    forall s: Vec<Byte>, rest: Bytes
      ensures ReadStr(PutStr(s, rest)) == Got(s, rest)
    {
      StrReads(s, rest);
    }
  }

  lemma BoolInverse()
    ensures Inverse(PutBool, ReadBool)
    ensures Inverse(PutByte, ReadByte)
  {
    forall b: Byte, rest: Bytes
      ensures ReadByte(PutByte(b, rest)) == Got(b, rest)
    {
    }
  }

  lemma OptionReads<T(!new)>(put: (T, Bytes) -> Bytes, read: Bytes -> Read<T>, o: Option<T>, rest: Bytes)
    requires Inverse(put, read)
    ensures ReadOption(read, PutOption(put, o, rest)) == Got(o, rest)
  {
    if o.Some? {
      assert read(put(o.value, rest)) == Got(o.value, rest);
      assert PutOption(put, o, rest)[1..] == put(o.value, rest);
    }
  }

  lemma {:induction false} EachReads<T(!new)>(put: (T, Bytes) -> Bytes, read: Bytes -> Read<T>, xs: seq<T>, rest: Bytes)
    requires Inverse(put, read)
    ensures ReadEach(read, |xs|, PutEach(put, xs, rest)) == Got(xs, rest)
  {
    if xs != [] {
      var tail := PutEach(put, xs[1..], rest);
      assert read(put(xs[0], tail)) == Got(xs[0], tail);
      EachReads(put, read, xs[1..], rest);
      assert [xs[0]] + xs[1..] == xs;
    }
  }

  lemma VecReads<T(!new)>(put: (T, Bytes) -> Bytes, read: Bytes -> Read<T>, xs: Vec<T>, rest: Bytes)
    requires Inverse(put, read)
    ensures ReadVec(read, PutVec(put, xs, rest)) == Got(xs, rest)
  {
    U64Reads(|xs|, PutEach(put, xs, rest));
    EachReads(put, read, xs, rest);
  }

  lemma {:induction false} AsciiReads(s: string)
    requires forall i :: 0 <= i < |s| ==> s[i] as int < 128
    ensures Chars(Ascii(s)) == s
  {
    if s != "" {
      AsciiReads(s[1..]);
    }
  }

  lemma ParseTypeName(t: TextInputType)
    ensures ParseType(TypeName(t)) == Some(t)
  {
  }

  lemma TypeInverse()
    ensures Inverse(PutType, ReadType)
  {
    forall t: TextInputType, rest: Bytes
      ensures ReadType(PutType(t, rest)) == Got(t, rest)
    {
      AsciiReads(TypeName(t));
      ParseTypeName(t);
      StrReads(Ascii(TypeName(t)), rest);
    }
  }

  lemma ParseActionName(a: TextInputAction)
    ensures ParseAction(ActionName(a)) == Some(a)
  {
  }

  lemma ActionInverse()
    ensures Inverse(PutAction, ReadAction)
  {
    forall a: TextInputAction, rest: Bytes
      ensures ReadAction(PutAction(a, rest)) == Got(a, rest)
    {
      AsciiReads(ActionName(a));
      ParseActionName(a);
      StrReads(Ascii(ActionName(a)), rest);
    }
  }

  lemma SelectionInverse()
    ensures Inverse(PutSelection, ReadSelection)
  {
    forall s: TextSelection, rest: Bytes
      ensures ReadSelection(PutSelection(s, rest)) == Got(s, rest)
    {
      U64Reads(s.extentOffset, rest);
      U64Reads(s.baseOffset, PutU64(s.extentOffset, rest));
    }
  }

  lemma RangeReads(r: Range, rest: Bytes)
    ensures ReadRange(PutRange(r, rest)) == Got(r, rest)
  {
    var s3 := PutU64(r.step, rest);
    var s2 := PutU64(r.maximum, s3);
    var s1 := PutU64(r.minimum, s2);
    U64Reads(r.step, rest);
    U64Reads(r.maximum, s3);
    U64Reads(r.minimum, s2);
    U64Reads(r.current, s1);
  }

  lemma RectReads(r: Rect, rest: Bytes)
    ensures ReadRect(PutRect(r, rest)) == Got(r, rest)
  {
    var s3 := PutU64(r.height, rest);
    var s2 := PutU64(r.width, s3);
    var s1 := PutU64(r.y, s2);
    U64Reads(r.height, rest);
    U64Reads(r.width, s3);
    U64Reads(r.y, s2);
    U64Reads(r.x, s1);
  }

  lemma LinksReads(l: Links, rest: Bytes)
    ensures ReadLinks(PutLinks(l, rest)) == Got(l, rest)
  {
    U64Inverse();
    var s5 := PutVec(PutU64, l.ownsIds, rest);
    var s4 := PutVec(PutU64, l.detailsIds, s5);
    var s3 := PutVec(PutU64, l.describedByIds, s4);
    var s2 := PutVec(PutU64, l.controlsIds, s3);
    var s1 := PutOption(PutU64, l.parentId, s2);
    VecReads(PutU64, ReadU64, l.ownsIds, rest);
    VecReads(PutU64, ReadU64, l.detailsIds, s5);
    VecReads(PutU64, ReadU64, l.describedByIds, s4);
    VecReads(PutU64, ReadU64, l.controlsIds, s3);
    OptionReads(PutU64, ReadU64, l.parentId, s2);
    U64Reads(l.id, s1);
  }

  lemma WordingReads(w: Wording, rest: Bytes)
    ensures ReadWording(PutWording(w, rest)) == Got(w, rest)
  {
    var s7 := PutOption(PutAction, w.textInputAction, rest);
    var s6 := PutOption(PutType, w.textInputType, s7);
    var s5 := PutBool(w.multiline, s6);
    var s4 := PutOption(PutSelection, w.textSelection, s5);
    var s3 := PutOption(PutStr, w.value, s4);
    var s2 := PutStr(w.description, s3);
    var s1 := PutStr(w.labelText, s2);
    assert ReadOption(ReadAction, s7) == Got(w.textInputAction, rest) by {
      ActionInverse();
      OptionReads(PutAction, ReadAction, w.textInputAction, rest);
    }
    assert ReadOption(ReadType, s6) == Got(w.textInputType, s7) by {
      TypeInverse();
      OptionReads(PutType, ReadType, w.textInputType, s7);
    }
    assert ReadOption(ReadSelection, s4) == Got(w.textSelection, s5) by {
      SelectionInverse();
      OptionReads(PutSelection, ReadSelection, w.textSelection, s5);
    }
    assert ReadOption(ReadStr, s3) == Got(w.value, s4) by {
      StrInverse();
      OptionReads(PutStr, ReadStr, w.value, s4);
    }
    StrReads(w.description, s3);
    StrReads(w.labelText, s2);
    StrReads(w.role, s1);
  }

  lemma FlagsReads(f: Flags, rest: Bytes)
    ensures ReadFlags(PutFlags(f, rest)) == Got(f, rest)
  {
    var s10 := PutVec(PutStr, f.actions, rest);
    var s9 := PutBool(f.focusable, s10);
    var s8 := PutBool(f.liveRegion, s9);
    var s7 := PutBool(f.hidden, s8);
    var s6 := PutOption(PutByte, f.headingLevel, s7);
    var s5 := PutOption(PutBool, f.expanded, s6);
    var s4 := PutBool(f.selected, s5);
    var s3 := PutOption(PutBool, f.mixed, s4);
    var s2 := PutOption(PutBool, f.checked, s3);
    assert ReadVec(ReadStr, s10) == Got(f.actions, rest) by {
      StrInverse();
      VecReads(PutStr, ReadStr, f.actions, rest);
    }
    BoolInverse();
    OptionReads(PutByte, ReadByte, f.headingLevel, s7);
    OptionReads(PutBool, ReadBool, f.expanded, s6);
    OptionReads(PutBool, ReadBool, f.mixed, s4);
    OptionReads(PutBool, ReadBool, f.checked, s3);
  }

  lemma NodeReads(n: Node, rest: Bytes)
    ensures ReadNode(PutNode(n, rest)) == Got(n, rest)
  {
    var s4 := PutFlags(n.flags, rest);
    var s3 := PutOption(PutRect, n.bbox, s4);
    var s2 := PutOption(PutRange, n.range, s3);
    var s1 := PutWording(n.wording, s2);
    FlagsReads(n.flags, rest);
    assert ReadOption(ReadRect, s3) == Got(n.bbox, s4) by {
      assert Inverse(PutRect, ReadRect) by {
        forall r: Rect, after: Bytes
          ensures ReadRect(PutRect(r, after)) == Got(r, after)
        {
          RectReads(r, after);
        }
      }
      OptionReads(PutRect, ReadRect, n.bbox, s4);
    }
    assert ReadOption(ReadRange, s2) == Got(n.range, s3) by {
      assert Inverse(PutRange, ReadRange) by {
        forall r: Range, after: Bytes
          ensures ReadRange(PutRange(r, after)) == Got(r, after)
        {
          RangeReads(r, after);
        }
      }
      OptionReads(PutRange, ReadRange, n.range, s3);
    }
    WordingReads(n.wording, s2);
    LinksReads(n.links, s1);
  }

  lemma NodeInverse()
    ensures Inverse(PutNode, ReadNode)
  {
    forall n: Node, rest: Bytes
      ensures ReadNode(PutNode(n, rest)) == Got(n, rest)
    {
      NodeReads(n, rest);
    }
  }

  lemma U32Reads(v: U32, rest: Bytes)
    ensures ReadU32(PutU64(v, rest)) == Got(v, rest)
  {
    U64Reads(v, rest);
  }

  /** The reader returns every hashed field and stops exactly where the snapshot ends. */
  lemma SnapshotReads(s: Snapshot, rest: Bytes)
    ensures ReadSnapshot(PutSnapshot(s, rest)) == Got(s, rest)
  {
    var s4 := PutVec(PutNode, s.nodes, rest);
    var s3 := PutBool(s.truncated, s4);
    var s2 := PutU64(s.height, s3);
    var s1 := PutU64(s.width, s2);
    assert ReadVec(ReadNode, s4) == Got(s.nodes, rest) by {
      NodeInverse();
      VecReads(PutNode, ReadNode, s.nodes, rest);
    }
    assert ReadBool(s3) == Got(s.truncated, s4);
    U32Reads(s.height, s3);
    U32Reads(s.width, s2);
    U64Reads(s.sourceGeneration, s1);
  }

  /** Prefix-free: streams that agree up to what follows them come from one snapshot. */
  lemma StreamDetermines(a: Snapshot, b: Snapshot, afterA: Bytes, afterB: Bytes)
    ensures PutSnapshot(a, afterA) == PutSnapshot(b, afterB) <==> a == b && afterA == afterB
  {
    SnapshotReads(a, afterA);
    SnapshotReads(b, afterB);
  }

  // ------------------------------------------------------------ hashing

  const OFFSET_BASIS: U64 := 0xcbf2_9ce4_8422_2325

  /** `wrapping_mul` keeps the low 64 bits. */
  function Wrap(z: int): U64 { z % 0x1_0000_0000_0000_0000 }

  function TimesPrime(x: U64): U64 { Wrap(x * 0x0000_0100_0000_01b3) }

  /** The inverse of the prime modulo 2^64. */
  function OverPrime(x: U64): U64 { Wrap(x * 0xce96_5057_aff6_957b) }

  /** Bitwise exclusive-or. */
  function Xor(a: nat, b: nat): nat
    decreases a + b
  {
    if a == 0 && b == 0 then 0 else 2 * Xor(a / 2, b / 2) + (a + b) % 2
  }

  lemma {:induction false} XorFits(a: nat, b: nat, n: nat)
    requires a < Power2(n) && b < Power2(n)
    ensures Xor(a, b) < Power2(n)
    decreases n
  {
    if n > 0 {
      XorFits(a / 2, b / 2, n - 1);
    }
  }

  function Power2(n: nat): nat {
    if n == 0 then 1 else 2 * Power2(n - 1)
  }

  lemma {:induction false} Power2Add(m: nat, n: nat)
    ensures Power2(m + n) == Power2(m) * Power2(n)
    decreases m
  {
    if m > 0 {
      Power2Add(m - 1, n);
    }
  }

  lemma Power2Word()
    ensures Power2(64) == TWO_64
  {
    assert Power2(4) == 0x10;
    Power2Add(4, 4);
    assert Power2(8) == 0x100;
    Power2Add(8, 8);
    assert Power2(16) == 0x1_0000;
    Power2Add(16, 16);
    assert Power2(32) == 0x1_0000_0000;
    Power2Add(32, 32);
  }

  lemma {:induction false} WordFits(a: U64, b: Byte)
    ensures Xor(a, b) < TWO_64
  {
    Power2Word();
    var bits: nat :| Power2(bits) == TWO_64;
    XorFits(a, b, bits);
  }

  function Flip(h: U64, b: Byte): U64 {
    WordFits(h, b);
    Xor(h, b)
  }

  /** One FNV-1a step. */
  function Mix(h: U64, b: Byte): U64 { TimesPrime(Flip(h, b)) }

  function Unmix(h: U64, b: Byte): U64 { Flip(OverPrime(h), b) }

  function Absorb(h: U64, bytes: Bytes): U64
    decreases |bytes|
  {
    if bytes == [] then h else Absorb(Mix(h, bytes[0]), bytes[1..])
  }

  /** The low 63 bits, and 1 for 0. */
  function Finish(h: U64): U64 {
    var value := h % 0x8000_0000_0000_0000;
    if value == 0 then 1 else value
  }

  function Fingerprint(s: Snapshot): U64 { Finish(Absorb(OFFSET_BASIS, PutSnapshot(s, []))) }

  lemma WrapIs(z: int, q: int, r: int)
    requires z == 0x1_0000_0000_0000_0000 * q + r && 0 <= r < 0x1_0000_0000_0000_0000
    ensures Wrap(z) == r
  {
  }

  lemma PrimeInvertible(x: U64)
    ensures OverPrime(TimesPrime(x)) == x
    ensures TimesPrime(OverPrime(x)) == x
  {
    // prime * inverse == 0xce9650590f * 2^64 + 1
    var z: int := x;
    var k: int, r: int := z * 0x0000_0100_0000_01b3 / 0x1_0000_0000_0000_0000, TimesPrime(x);
    assert z * 0x0000_0100_0000_01b3 == 0x1_0000_0000_0000_0000 * k + r;
    WrapIs(r * 0xce96_5057_aff6_957b, 0xce_9650_590f * z - k * 0xce96_5057_aff6_957b, z);
    k, r := z * 0xce96_5057_aff6_957b / 0x1_0000_0000_0000_0000, OverPrime(x);
    assert z * 0xce96_5057_aff6_957b == 0x1_0000_0000_0000_0000 * k + r;
    WrapIs(r * 0x0000_0100_0000_01b3, 0xce_9650_590f * z - k * 0x0000_0100_0000_01b3, z);
  }

  lemma {:induction false} XorStep(a: nat, b: nat)
    ensures Xor(a, b) == 2 * Xor(a / 2, b / 2) + (a + b) % 2
    ensures Xor(a, b) / 2 == Xor(a / 2, b / 2) && Xor(a, b) % 2 == (a + b) % 2
  {
  }

  lemma SameParity(a: nat, b: nat, x: nat)
    requires x % 2 == (a + b) % 2
    ensures 2 * (a / 2) + (x + b) % 2 == a
  {
  }

  lemma {:induction false} XorTwice(a: nat, b: nat)
    ensures Xor(Xor(a, b), b) == a
    decreases a + b
  {
    var x := Xor(a, b);
    XorStep(a, b);
    XorStep(x, b);
    if a != 0 || b != 0 {
      XorTwice(a / 2, b / 2);
      SameParity(a, b, x);
    }
  }

  lemma {:induction false} XorCommutes(a: nat, b: nat)
    ensures Xor(a, b) == Xor(b, a)
    decreases a + b
  {
    if a != 0 || b != 0 {
      XorCommutes(a / 2, b / 2);
    }
  }

  lemma {:induction false} XorSeparates(a: nat, b: nat, c: nat)
    requires Xor(a, b) == Xor(a, c)
    ensures b == c
  {
    XorCommutes(a, b);
    XorCommutes(a, c);
    XorTwice(b, a);
    XorTwice(c, a);
  }

  /** Each step is a bijection on states for a fixed byte. */
  lemma MixBijective(h: U64, b: Byte)
    ensures Unmix(Mix(h, b), b) == h
    ensures Mix(Unmix(h, b), b) == h
  {
    PrimeInvertible(Flip(h, b));
    XorTwice(h, b);
    XorTwice(OverPrime(h), b);
    PrimeInvertible(h);
  }

  lemma MixSeparates(h: U64, b: Byte, c: Byte)
    ensures Mix(h, b) == Mix(h, c) <==> b == c
  {
    if Mix(h, b) == Mix(h, c) {
      PrimeInvertible(Flip(h, b));
      PrimeInvertible(Flip(h, c));
      XorSeparates(h, b, c);
    }
  }

  /** Distinct states stay distinct under a common suffix. */
  lemma {:induction false} AbsorbInjective(a: U64, b: U64, suffix: Bytes)
    ensures Absorb(a, suffix) == Absorb(b, suffix) <==> a == b
    decreases |suffix|
  {
    if suffix != [] {
      AbsorbInjective(Mix(a, suffix[0]), Mix(b, suffix[0]), suffix[1..]);
      MixBijective(a, suffix[0]);
      MixBijective(b, suffix[0]);
    }
  }

  lemma {:induction false} AbsorbAppend(h: U64, p: Bytes, s: Bytes)
    ensures Absorb(h, p + s) == Absorb(Absorb(h, p), s)
    decreases |p|
  {
    if p == [] {
      assert p + s == s;
    } else {
      assert (p + s)[1..] == p[1..] + s;
      AbsorbAppend(Mix(h, p[0]), p[1..], s);
    }
  }

  /** Changing one byte of a stream always changes the state it leaves. */
  lemma {:induction false} OneByteShows(h: U64, p: Bytes, b: Byte, c: Byte, s: Bytes)
    ensures Absorb(h, p + ([b] + s)) == Absorb(h, p + ([c] + s)) <==> b == c
  {
    AbsorbAppend(h, p, [b] + s);
    AbsorbAppend(h, p, [c] + s);
    MixSeparates(Absorb(h, p), b, c);
    AbsorbInjective(Mix(Absorb(h, p), b), Mix(Absorb(h, p), c), s);
    assert ([b] + s)[1..] == s && ([c] + s)[1..] == s;
  }

  /** A fingerprint is positive, fits 63 bits, and forgets the top bit and whether the rest was 0 or 1. */
  lemma FinishExact(a: U64, b: U64)
    ensures 0 < Finish(a) < 0x8000_0000_0000_0000
    ensures Finish(a) == Finish(b) <==>
            || a == b || a == b + 0x8000_0000_0000_0000 || b == a + 0x8000_0000_0000_0000
            || (a % 0x8000_0000_0000_0000 <= 1 && b % 0x8000_0000_0000_0000 <= 1)
  {
  }

  // ---- the low 63 bits, which are what a fingerprint keeps

  const TOP: nat := 0x8000_0000_0000_0000

  /** The state with its top bit inverted. */
  function Toggle(h: U64): U64 { if h < TOP then h + TOP else h - TOP }

  predicate SameLow(a: U64, b: U64) { b == a || b == Toggle(a) }

  lemma SameLowExact(a: U64, b: U64)
    ensures SameLow(a, b) <==> a % TOP == b % TOP
  {
  }

  /** The prime is odd, so it passes an inverted top bit on unchanged. */
  lemma PrimeToggles(x: U64)
    ensures TimesPrime(Toggle(x)) == Toggle(TimesPrime(x))
  {
    // prime == 2 * 0x80000000d9 + 1
    var z: int, y: int := x, Toggle(x);
    var k: int, r: int := z * 0x0000_0100_0000_01b3 / 0x1_0000_0000_0000_0000, TimesPrime(x);
    assert z * 0x0000_0100_0000_01b3 == 0x1_0000_0000_0000_0000 * k + r;
    var up: int := if z < TOP then 0x80_0000_00d9 else -0x80_0000_00d9;
    var carry: int := if z < TOP then (if r < TOP then 0 else 1) else (if r < TOP then -1 else 0);
    WrapIs(y * 0x0000_0100_0000_01b3, k + up + carry, Toggle(TimesPrime(x)));
  }

  lemma HalfPast(x: nat, c: nat, q: nat)
    ensures (x + 2 * q) / 2 == x / 2 + q && (x + 2 * q + c) % 2 == (x + c) % 2
  {
  }

  lemma {:induction false} XorPastTop(x: nat, c: nat, n: nat)
    requires x < Power2(n) && c < Power2(n)
    ensures Xor(x + Power2(n), c) == Xor(x, c) + Power2(n)
    decreases n
  {
    if n == 0 {
      XorStep(1, 0);
    } else {
      var q := Power2(n - 1);
      XorStep(x, c);
      XorStep(x + 2 * q, c);
      HalfPast(x, c, q);
      XorPastTop(x / 2, c / 2, n - 1);
    }
  }

  lemma Power2Top() returns (n: nat)
    ensures Power2(n) == TOP && TOP >= 256
  {
    Power2Word();
    n := 63;
  }

  /** Exclusive-or with a byte leaves the top bit alone and does not look at it. */
  lemma FlipBelowTop(x: U64, b: Byte)
    requires x < TOP
    ensures Flip(x, b) < TOP && Flip(Toggle(x), b) == Toggle(Flip(x, b))
  {
    var n := Power2Top();
    XorFits(x, b, n);
    XorPastTop(x, b, n);
  }

  lemma FlipToggles(h: U64, b: Byte)
    ensures Flip(h, b) < TOP <==> h < TOP
    ensures Flip(Toggle(h), b) == Toggle(Flip(h, b))
  {
    FlipBelowTop(if h < TOP then h else Toggle(h), b);
  }

  lemma MixToggles(h: U64, b: Byte)
    ensures Mix(Toggle(h), b) == Toggle(Mix(h, b))
  {
    FlipToggles(h, b);
    PrimeToggles(Flip(h, b));
  }

  /** Steps with one byte keep low parts apart, and steps with two bytes set them apart. */
  lemma MixLow(g: U64, h: U64, b: Byte)
    ensures SameLow(Mix(g, b), Mix(h, b)) <==> SameLow(g, h)
  {
    MixToggles(g, b);
    MixBijective(g, b);
    MixBijective(h, b);
    MixBijective(Toggle(g), b);
  }

  lemma MixLowSeparates(h: U64, b: Byte, c: Byte)
    requires b != c
    ensures !SameLow(Mix(h, b), Mix(h, c))
  {
    MixSeparates(h, b, c);
    if Mix(h, c) == Toggle(Mix(h, b)) {
      MixToggles(h, b);
      PrimeInvertible(Flip(h, c));
      PrimeInvertible(Flip(Toggle(h), b));
      FlipToggles(h, b);
      FlipToggles(h, c);
    }
  }

  lemma {:induction false} AbsorbLow(g: U64, h: U64, suffix: Bytes)
    ensures SameLow(Absorb(g, suffix), Absorb(h, suffix)) <==> SameLow(g, h)
    decreases |suffix|
  {
    if suffix != [] {
      MixLow(g, h, suffix[0]);
      AbsorbLow(Mix(g, suffix[0]), Mix(h, suffix[0]), suffix[1..]);
    }
  }

  /** Changing one byte of a stream always changes the low 63 bits of the state it leaves. */
  lemma {:induction false} OneByteShowsLow(h: U64, p: Bytes, b: Byte, c: Byte, s: Bytes)
    requires b != c
    ensures Absorb(h, p + ([b] + s)) % TOP != Absorb(h, p + ([c] + s)) % TOP
  {
    var g := Absorb(h, p);
    AbsorbAppend(h, p, [b] + s);
    AbsorbAppend(h, p, [c] + s);
    assert ([b] + s)[1..] == s && ([c] + s)[1..] == s;
    MixLowSeparates(g, b, c);
    AbsorbLow(Mix(g, b), Mix(g, c), s);
    SameLowExact(Absorb(h, p + ([b] + s)), Absorb(h, p + ([c] + s)));
  }

  lemma FinishLow(a: U64, b: U64)
    requires a % TOP != b % TOP
    ensures Finish(a) == Finish(b) <==> a % TOP <= 1 && b % TOP <= 1
  {
  }

  /** The `AccessibilityHash` accumulator. The ghost `rest` is what will be hashed afterwards. */
  class Hasher {
    var state: U64

    constructor ()
      ensures state == OFFSET_BASIS
    {
      state := OFFSET_BASIS;
    }

    method PushByte(b: Byte)
      modifies this
      ensures state == Mix(old(state), b)
    {
      state := Flip(state, b);
      state := TimesPrime(state);
    }

    method Boolean(b: bool, ghost rest: Bytes)
      modifies this
      ensures Absorb(state, rest) == Absorb(old(state), PutBool(b, rest))
    {
      PushByte(if b then 1 else 0);
      assert PutBool(b, rest)[1..] == rest;
    }

    method Word(value: U64, ghost rest: Bytes)
      modifies this
      ensures Absorb(state, rest) == Absorb(old(state), PutU64(value, rest))
    {
      var v, n := value, 8;
      while n > 0
        invariant 0 <= v && 0 <= n
        invariant Absorb(state, PutLe(v, n, rest)) == Absorb(old(state), PutU64(value, rest))
      {
        assert PutLe(v, n, rest)[1..] == PutLe(v / 256, n - 1, rest);
        PushByte(v % 256);
        v, n := v / 256, n - 1;
      }
    }

    method String(s: Vec<Byte>, ghost rest: Bytes)
      modifies this
      ensures Absorb(state, rest) == Absorb(old(state), PutStr(s, rest))
    {
      Word(|s|, s + rest);
      for i := 0 to |s|
        invariant Absorb(state, s[i..] + rest) == Absorb(old(state), PutStr(s, rest))
      {
        assert (s[i..] + rest)[1..] == s[i + 1..] + rest;
        PushByte(s[i]);
      }
      assert s[|s|..] + rest == rest;
    }

    method OptionalString(o: Option<Vec<Byte>>, ghost rest: Bytes)
      modifies this
      ensures Absorb(state, rest) == Absorb(old(state), PutOption(PutStr, o, rest))
    {
      match o
      case Some(s) =>
        assert ([1] + PutStr(s, rest))[1..] == PutStr(s, rest);
        PushByte(1);
        String(s, rest);
      case None =>
        assert ([0] + rest)[1..] == rest;
        PushByte(0);
    }

    method OptionalBool(o: Option<bool>, ghost rest: Bytes)
      modifies this
      ensures Absorb(state, rest) == Absorb(old(state), PutOption(PutBool, o, rest))
    {
      match o
      case Some(b) =>
        assert ([1] + PutBool(b, rest))[1..] == PutBool(b, rest);
        PushByte(1);
        Boolean(b, rest);
      case None =>
        assert ([0] + rest)[1..] == rest;
        PushByte(0);
    }

    method Ids(ids: Vec<U64>, ghost rest: Bytes)
      modifies this
      ensures Absorb(state, rest) == Absorb(old(state), PutVec(PutU64, ids, rest))
    {
      Word(|ids|, PutEach(PutU64, ids, rest));
      for i := 0 to |ids|
        invariant Absorb(state, PutEach(PutU64, ids[i..], rest)) == Absorb(old(state), PutVec(PutU64, ids, rest))
      {
        assert ids[i..][1..] == ids[i + 1..];
        Word(ids[i], PutEach(PutU64, ids[i + 1..], rest));
      }
    }

    method Actions(actions: Vec<Vec<Byte>>, ghost rest: Bytes)
      modifies this
      ensures Absorb(state, rest) == Absorb(old(state), PutVec(PutStr, actions, rest))
    {
      Word(|actions|, PutEach(PutStr, actions, rest));
      for i := 0 to |actions|
        invariant Absorb(state, PutEach(PutStr, actions[i..], rest))
               == Absorb(old(state), PutVec(PutStr, actions, rest))
      {
        assert actions[i..][1..] == actions[i + 1..];
        String(actions[i], PutEach(PutStr, actions[i + 1..], rest));
      }
    }

    method HashLinks(l: Links, ghost rest: Bytes)
      modifies this
      ensures Absorb(state, rest) == Absorb(old(state), PutLinks(l, rest))
    {
      ghost var s5 := PutVec(PutU64, l.ownsIds, rest);
      ghost var s4 := PutVec(PutU64, l.detailsIds, s5);
      ghost var s3 := PutVec(PutU64, l.describedByIds, s4);
      ghost var s2 := PutVec(PutU64, l.controlsIds, s3);
      Word(l.id, PutOption(PutU64, l.parentId, s2));
      match l.parentId {
        case Some(id) =>
          assert ([1] + PutU64(id, s2))[1..] == PutU64(id, s2);
          PushByte(1);
          Word(id, s2);
        case None =>
          assert ([0] + s2)[1..] == s2;
          PushByte(0);
      }
      Ids(l.controlsIds, s3);
      Ids(l.describedByIds, s4);
      Ids(l.detailsIds, s5);
      Ids(l.ownsIds, rest);
    }
  
    method HashWording(w: Wording, ghost rest: Bytes)
      modifies this
      ensures Absorb(state, rest) == Absorb(old(state), PutWording(w, rest))
    {
      ghost var s7 := PutOption(PutAction, w.textInputAction, rest);
      ghost var s6 := PutOption(PutType, w.textInputType, s7);
      ghost var s5 := PutBool(w.multiline, s6);
      ghost var s4 := PutOption(PutSelection, w.textSelection, s5);
      ghost var s3 := PutOption(PutStr, w.value, s4);
      ghost var s2 := PutStr(w.description, s3);
      String(w.role, PutStr(w.labelText, s2));
      String(w.labelText, s2);
      String(w.description, s3);
      OptionalString(w.value, s4);
      OptionalSelection(w.textSelection, s5);
      Boolean(w.multiline, s6);
      OptionalType(w.textInputType, s7);
      OptionalAction(w.textInputAction, rest);
    }

    method OptionalSelection(o: Option<TextSelection>, ghost rest: Bytes)
      modifies this
      ensures Absorb(state, rest) == Absorb(old(state), PutOption(PutSelection, o, rest))
    {
      match o
      case Some(s) =>
        assert ([1] + PutSelection(s, rest))[1..] == PutSelection(s, rest);
        PushByte(1);
        Word(s.baseOffset, PutU64(s.extentOffset, rest));
        Word(s.extentOffset, rest);
      case None =>
        assert ([0] + rest)[1..] == rest;
        PushByte(0);
    }

    method OptionalType(o: Option<TextInputType>, ghost rest: Bytes)
      modifies this
      ensures Absorb(state, rest) == Absorb(old(state), PutOption(PutType, o, rest))
    {
      assert o.Some? ==> PutOption(PutType, o, rest) == [1] + PutStr(Ascii(TypeName(o.value)), rest);
      OptionalString(if o.Some? then Some(Ascii(TypeName(o.value))) else None, rest);
    }

    method OptionalAction(o: Option<TextInputAction>, ghost rest: Bytes)
      modifies this
      ensures Absorb(state, rest) == Absorb(old(state), PutOption(PutAction, o, rest))
    {
      assert o.Some? ==> PutOption(PutAction, o, rest) == [1] + PutStr(Ascii(ActionName(o.value)), rest);
      OptionalString(if o.Some? then Some(Ascii(ActionName(o.value))) else None, rest);
    }

    method OptionalRange(o: Option<Range>, ghost rest: Bytes)
      modifies this
      ensures Absorb(state, rest) == Absorb(old(state), PutOption(PutRange, o, rest))
    {
      match o
      case Some(r) =>
        assert ([1] + PutRange(r, rest))[1..] == PutRange(r, rest);
        PushByte(1);
        Word(r.current, PutU64(r.minimum, PutU64(r.maximum, PutU64(r.step, rest))));
        Word(r.minimum, PutU64(r.maximum, PutU64(r.step, rest)));
        Word(r.maximum, PutU64(r.step, rest));
        Word(r.step, rest);
      case None =>
        assert ([0] + rest)[1..] == rest;
        PushByte(0);
    }

    method OptionalRect(o: Option<Rect>, ghost rest: Bytes)
      modifies this
      ensures Absorb(state, rest) == Absorb(old(state), PutOption(PutRect, o, rest))
    {
      match o
      case Some(r) =>
        assert ([1] + PutRect(r, rest))[1..] == PutRect(r, rest);
        PushByte(1);
        Word(r.x, PutU64(r.y, PutU64(r.width, PutU64(r.height, rest))));
        Word(r.y, PutU64(r.width, PutU64(r.height, rest)));
        Word(r.width, PutU64(r.height, rest));
        Word(r.height, rest);
      case None =>
        assert ([0] + rest)[1..] == rest;
        PushByte(0);
    }

    method OptionalByte(o: Option<Byte>, ghost rest: Bytes)
      modifies this
      ensures Absorb(state, rest) == Absorb(old(state), PutOption(PutByte, o, rest))
    {
      match o
      case Some(b) =>
        assert ([1] + PutByte(b, rest))[1..] == PutByte(b, rest) && PutByte(b, rest)[1..] == rest;
        PushByte(1);
        PushByte(b);
      case None =>
        assert ([0] + rest)[1..] == rest;
        PushByte(0);
    }

    method HashFlags(f: Flags, ghost rest: Bytes)
      modifies this
      ensures Absorb(state, rest) == Absorb(old(state), PutFlags(f, rest))
    {
      ghost var s10 := PutVec(PutStr, f.actions, rest);
      ghost var s9 := PutBool(f.focusable, s10);
      ghost var s8 := PutBool(f.liveRegion, s9);
      ghost var s7 := PutBool(f.hidden, s8);
      ghost var s6 := PutOption(PutByte, f.headingLevel, s7);
      ghost var s5 := PutOption(PutBool, f.expanded, s6);
      ghost var s4 := PutBool(f.selected, s5);
      ghost var s3 := PutOption(PutBool, f.mixed, s4);
      ghost var s2 := PutOption(PutBool, f.checked, s3);
      Boolean(f.focused, PutBool(f.disabled, s2));
      Boolean(f.disabled, s2);
      OptionalBool(f.checked, s3);
      OptionalBool(f.mixed, s4);
      Boolean(f.selected, s5);
      OptionalBool(f.expanded, s6);
      OptionalByte(f.headingLevel, s7);
      Boolean(f.hidden, s8);
      Boolean(f.liveRegion, s9);
      Boolean(f.focusable, s10);
      Actions(f.actions, rest);
    }

    method HashNode(n: Node, ghost rest: Bytes)
      modifies this
      ensures Absorb(state, rest) == Absorb(old(state), PutNode(n, rest))
    {
      ghost var s4 := PutFlags(n.flags, rest);
      ghost var s3 := PutOption(PutRect, n.bbox, s4);
      ghost var s2 := PutOption(PutRange, n.range, s3);
      HashLinks(n.links, PutWording(n.wording, s2));
      HashWording(n.wording, s2);
      OptionalRange(n.range, s3);
      OptionalRect(n.bbox, s4);
      HashFlags(n.flags, rest);
    }

    method HashNodes(nodes: Vec<Node>, ghost rest: Bytes)
      modifies this
      ensures Absorb(state, rest) == Absorb(old(state), PutVec(PutNode, nodes, rest))
    {
      Word(|nodes|, PutEach(PutNode, nodes, rest));
      for i := 0 to |nodes|
        invariant Absorb(state, PutEach(PutNode, nodes[i..], rest)) == Absorb(old(state), PutVec(PutNode, nodes, rest))
      {
        assert nodes[i..][1..] == nodes[i + 1..];
        HashNode(nodes[i], PutEach(PutNode, nodes[i + 1..], rest));
      }
    }
  }

  /** A snapshot; its generation is recomputed in place. */
  class AccessibilitySnapshot {
    var contextId: U64
    var documentId: U64
    var generation: U64
    var hashed: Snapshot

    constructor (contextId: U64, documentId: U64, generation: U64, hashed: Snapshot)
      ensures this.contextId == contextId && this.documentId == documentId
      ensures this.generation == generation && this.hashed == hashed
    {
      this.contextId, this.documentId, this.generation, this.hashed := contextId, documentId, generation, hashed;
    }

    method RefreshGeneration()
      modifies this`generation
      ensures generation == Fingerprint(hashed)
    {
      var hash := new Hasher();
      ghost var s4 := PutVec(PutNode, hashed.nodes, []);
      ghost var s3 := PutBool(hashed.truncated, s4);
      ghost var s2 := PutU64(hashed.height, s3);
      hash.Word(hashed.sourceGeneration, PutU64(hashed.width, s2));
      hash.Word(hashed.width, s2);
      hash.Word(hashed.height, s3);
      hash.Boolean(hashed.truncated, s4);
      hash.HashNodes(hashed.nodes, []);
      generation := Finish(hash.state);
    }
  }

  function StateOf(s: Snapshot): U64 { Absorb(OFFSET_BASIS, PutSnapshot(s, [])) }

  /**
   Snapshots whose streams differ in one byte share a fingerprint only through the
   replacement of 0 by 1: exactly when the low 63 bits of their states are 0 and 1.
   */
  lemma {:induction false} OneByteFingerprint(a: Snapshot, b: Snapshot, p: Bytes, x: Byte, y: Byte, s: Bytes)
    requires PutSnapshot(a, []) == p + ([x] + s) && PutSnapshot(b, []) == p + ([y] + s) && x != y
    ensures a != b && StateOf(a) % TOP != StateOf(b) % TOP
    ensures Fingerprint(a) == Fingerprint(b) <==> {StateOf(a) % TOP, StateOf(b) % TOP} == {0, 1}
  {
    OneByteShowsLow(OFFSET_BASIS, p, x, y, s);
    FinishLow(StateOf(a), StateOf(b));
    Pair(StateOf(a) % TOP, StateOf(b) % TOP);
  }

  lemma Pair(u: int, v: int)
    requires 0 <= u && 0 <= v && u != v
    ensures u <= 1 && v <= 1 <==> {u, v} == {0, 1}
  {
    if {u, v} == {0, 1} {
      assert u in {0, 1} && v in {0, 1};
    }
  }

  lemma {:induction false} LeAppends(v: nat, n: nat, rest: Bytes)
    ensures PutLe(v, n, rest) == PutLe(v, n, []) + rest
    decreases n
  {
    if n > 0 {
      LeAppends(v / 256, n - 1, rest);
    }
  }

  /** The truncation flag alone shows in the fingerprint, unless the low 63 bits of the states are 0 and 1. */
  lemma {:induction false} TruncationShows(s: Snapshot)
    ensures var t := s.(truncated := !s.truncated);
            && StateOf(s) % TOP != StateOf(t) % TOP
            && (Fingerprint(s) == Fingerprint(t) <==> {StateOf(s) % TOP, StateOf(t) % TOP} == {0, 1})
  {
    var g, w, h := PutU64(s.sourceGeneration, []), PutU64(s.width, []), PutU64(s.height, []);
    var p, nodes := g + w + h, PutVec(PutNode, s.nodes, []);
    TruncationByte(s, g, w, h, nodes);
    var t := s.(truncated := !s.truncated);
    TruncationByte(t, g, w, h, nodes);
    OneByteFingerprint(s, t, p, if s.truncated then 1 else 0, if t.truncated then 1 else 0, nodes);
  }

  lemma {:induction false} TruncationByte(s: Snapshot, g: Bytes, w: Bytes, h: Bytes, nodes: Bytes)
    requires g == PutU64(s.sourceGeneration, []) && w == PutU64(s.width, []) && h == PutU64(s.height, [])
    requires nodes == PutVec(PutNode, s.nodes, [])
    ensures PutSnapshot(s, []) == g + w + h + ([if s.truncated then 1 else 0] + nodes)
  {
    var s3 := PutBool(s.truncated, nodes);
    LeAppends(s.height, 8, s3);
    LeAppends(s.width, 8, h + s3);
    LeAppends(s.sourceGeneration, 8, w + (h + s3));
    Assoc(g, w, h + s3);
    Assoc(g + w, h, s3);
  }

  // ------------------------------------------------------------ a published value

  lemma {:induction false} XorZero(a: nat)
    ensures Xor(a, 0) == a
    decreases a
  {
    if a != 0 {
      XorZero(a / 2);
    }
  }

  lemma {:induction false} Half(a: nat, b: nat, c: nat, d: nat, bit: nat)
    requires a == 2 * c + (if (b + bit) % 2 == 0 then 0 else 1) && b / 2 == d && bit < 2
    ensures Xor(a, b) == 2 * Xor(c, d) + bit
  {
    HalfArith(a, b, c, bit);
    XorStep(a, b);
  }

  lemma HalfArith(a: nat, b: nat, c: nat, bit: nat)
    requires a == 2 * c + (if (b + bit) % 2 == 0 then 0 else 1) && bit < 2
    ensures a / 2 == c && (a + b) % 2 == bit
  {
  }

  lemma {:induction false} Quarter(a: nat, b: nat, m: nat, n: nat, c: nat, d: nat, low: nat, high: nat)
    requires a == 2 * m + (if (b + low) % 2 == 0 then 0 else 1) && b / 2 == n && low < 2
    requires m == 2 * c + (if (n + high) % 2 == 0 then 0 else 1) && n / 2 == d && high < 2
    ensures Xor(a, b) == 4 * Xor(c, d) + 2 * high + low
  {
    Half(a, b, m, n, low);
    Half(m, n, c, d, high);
  }

  /** Exclusive-or with "a" on a state whose low seven bits are 0x25 makes them 0x44. */
  lemma {:induction false} FlipLowBits(q: nat, b: nat)
    requires b == 97
    ensures Xor(128 * q + 37, b) == 128 * q + 68
  {
    Quarter(128 * q + 37, b, 64 * q + 18, b / 2, 32 * q + 9, b / 4, 0, 0);
    Quarter(32 * q + 9, b / 4, 16 * q + 4, b / 8, 8 * q + 2, b / 16, 1, 0);
    Quarter(8 * q + 2, b / 16, 4 * q + 1, b / 32, 2 * q, b / 64, 0, 0);
    Half(2 * q, b / 64, q, b / 128, 1);
    XorZero(q);
  }

  lemma {:induction false} PublishedStep(q: nat, h: U64, b: Byte)
    requires h == 128 * q + 37 && q == 0x197e539c9084446 && b == 97
    ensures Mix(h, b) == 0xaf63dc4c8601ec8c
  {
    FlipLowBits(q, b);
    var x: int := Flip(h, b);
    assert x == 128 * q + 68;
    WrapIs(x * 0x0000_0100_0000_01b3, 875948729822, 0xaf63dc4c8601ec8c);
  }

  /** The hash is FNV-1a: it leaves no bytes at the offset basis and takes "a" to its published value. */
  lemma {:induction false} PublishedValue(bytes: Bytes)
    ensures bytes == [] ==> Absorb(OFFSET_BASIS, bytes) == 14695981039346656037
    ensures bytes == [97] ==> Absorb(OFFSET_BASIS, bytes) == 0xaf63dc4c8601ec8c
  {
    if bytes == [97] {
      PublishedStep(0x197e539c9084446, OFFSET_BASIS, bytes[0]);
      assert bytes[1..] == [];
    }
  }
}
