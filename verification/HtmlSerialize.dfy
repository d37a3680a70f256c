/**
 HTML fragment serialization. The functions take the text that follows (`rest`), which
 keeps every equation free of re-association; the methods below them append to an
 output buffer as the source does.
 */
module HtmlSerialize {
  import opened Common
  import opened Scan

  datatype Scripting = Enabled | Disabled

  datatype Attribute = Attribute(name: string, value: string)

  datatype Node =
    | Document(children: seq<Node>)
    | Doctype(name: string)
    | Text(text: string)
    | Comment(contents: string)
    | Element(tag: string, attributes: seq<Attribute>, children: seq<Node>)
    | ProcessingInstruction(target: string, contents: string)

  predicate IsVoid(tag: string) {
    tag in {"area", "base", "br", "col", "embed", "hr", "img", "input", "link", "meta", "param", "source", "track",
            "wbr"}
  }

  predicate IsRawText(tag: string, scripting: Scripting) {
    || tag in {"script", "style", "xmp", "iframe", "noembed", "noframes", "plaintext"}
    || (tag == "noscript" && scripting == Enabled)
  }

  const NBSP: char := '\U{00A0}'

  function TextCharacter(c: char): string {
    if c == '&' then "&amp;" else if c == '<' then "&lt;" else if c == '>' then "&gt;"
    else if c == NBSP then "&nbsp;" else [c]
  }

  function EscapeText(s: string): string {
    if s == [] then [] else TextCharacter(s[0]) + EscapeText(s[1..])
  }

  function AttributeCharacter(c: char): string {
    if c == '&' then "&amp;" else if c == '"' then "&quot;" else if c == NBSP then "&nbsp;" else [c]
  }

  function EscapeAttribute(s: string): string {
    if s == [] then [] else AttributeCharacter(s[0]) + EscapeAttribute(s[1..])
  }

  /** Trailing hyphens of the output after one more character, counted up to two. */
  function Hyphens(before: nat, c: char): nat {
    if c == '-' then (if before >= 1 then 2 else 1) else 0
  }

  /** `push_comment_contents`, given how many hyphens the output ends with. */
  function CommentBody(s: string, hyphens: nat): string {
    if s == [] then []
    else if s[0] == '>' && hyphens >= 2 then "&gt;" + CommentBody(s[1..], 0)
    else [s[0]] + CommentBody(s[1..], Hyphens(hyphens, s[0]))
  }

  function Attributes(attributes: seq<Attribute>, rest: string): string {
    if attributes == [] then rest
    else
      var after := Attributes(attributes[1..], rest);
      " " + (attributes[0].name + ("=\"" + (EscapeAttribute(attributes[0].value) + ("\"" + after))))
  }

  function OpenTag(tag: string, attributes: seq<Attribute>, rest: string): string {
    "<" + (tag + Attributes(attributes, ">" + rest))
  }

  function CloseTag(tag: string, rest: string): string { "</" + (tag + (">" + rest)) }

  /** `serialize_node_inner`. */
  function Serialize(node: Node, scripting: Scripting, parent: Option<string>, rest: string): string
    decreases node, 1
  {
    match node
    case Document(children) => SerializeAll(children, scripting, None, rest)
    case Doctype(name) => "<!doctype " + (name + (">" + rest))
    case Text(text) =>
      (if parent.Some? && IsRawText(parent.value, scripting) then text else EscapeText(text)) + rest
    case Comment(contents) => "<!--" + (CommentBody(contents, 2) + ("-->" + rest))
    case Element(tag, attributes, children) =>
      OpenTag(tag, attributes,
              if IsVoid(tag) then rest
              else if IsRawText(tag, scripting) then SerializeRawAll(children, scripting, CloseTag(tag, rest))
              else SerializeAll(children, scripting, Some(tag), CloseTag(tag, rest)))
    case ProcessingInstruction(target, contents) => "<?" + (target + (" " + (contents + (">" + rest))))
  }

  function SerializeAll(nodes: seq<Node>, scripting: Scripting, parent: Option<string>, rest: string): string
    decreases nodes, 0
  {
    if nodes == [] then rest
    else Serialize(nodes[0], scripting, parent, SerializeAll(nodes[1..], scripting, parent, rest))
  }

  /** `serialize_raw_child` over a list. */
  function SerializeRawAll(nodes: seq<Node>, scripting: Scripting, rest: string): string
    decreases nodes, 0
  {
    if nodes == [] then rest
    else
      var after := SerializeRawAll(nodes[1..], scripting, rest);
      if nodes[0].Text? then nodes[0].text + after else Serialize(nodes[0], scripting, None, after)
  }

  function TagOf(node: Node): Option<string> { if node.Element? then Some(node.tag) else None }

  function Children(node: Node): seq<Node> {
    if node.Element? || node.Document? then node.children else []
  }

  /** `serialize_children`: the inner form of a node. */
  function Inner(node: Node, scripting: Scripting, rest: string): string {
    SerializeAll(Children(node), scripting, TagOf(node), rest)
  }

  // -------------------------------------------------- outer form and inner form

  lemma {:induction false} ParentOnlyMattersForText(
      node: Node, scripting: Scripting, p: Option<string>, q: Option<string>, rest: string)
    requires !node.Text?
    ensures Serialize(node, scripting, p, rest) == Serialize(node, scripting, q, rest)
  {
  }

  lemma {:induction false} RawPathsAgree(nodes: seq<Node>, scripting: Scripting, tag: string, rest: string)
    requires IsRawText(tag, scripting)
    ensures SerializeRawAll(nodes, scripting, rest) == SerializeAll(nodes, scripting, Some(tag), rest)
  {
    if nodes != [] {
      RawPathsAgree(nodes[1..], scripting, tag, rest);
      if !nodes[0].Text? {
        var after := SerializeAll(nodes[1..], scripting, Some(tag), rest);
        ParentOnlyMattersForText(nodes[0], scripting, None, Some(tag), after);
      }
    }
  }

  /** For any tree, a non-void element's outer form is its open tag, its inner form, its close tag. */
  lemma {:induction false} OuterIsTaggedInner(node: Node, scripting: Scripting, parent: Option<string>, rest: string)
    requires node.Element? && !IsVoid(node.tag)
    ensures Serialize(node, scripting, parent, rest)
            == OpenTag(node.tag, node.attributes, Inner(node, scripting, CloseTag(node.tag, rest)))
  {
    if IsRawText(node.tag, scripting) {
      RawPathsAgree(node.children, scripting, node.tag, CloseTag(node.tag, rest));
    }
  }

  // ----------------------------------------------------------------- comments

  /** The escaping loop leaves a comment alone exactly when, after "<!--", it never spells "-->". */
  lemma {:induction false} CommentUnchanged(s: string)
    ensures CommentBody(s, 2) == s <==> !Contains("--" + s, "-->")
  {
    CommentUnchangedFrom(s, 2);
    assert "--" + "" + s == "--" + s;
    if Contains("--" + s, "-->") && Quiet(s, 2) {
      var t := "--" + s;
      var i :| 0 <= i <= |t| && OccursAt(t, "-->", i);
      assert t[i..i + 3][2] == t[i + 2] == '>';
      assert t[i..i + 3][0] == t[i] && t[i..i + 3][1] == t[i + 1];
      QuietNoClose("", s, 2, i);
    }
    if !Contains("--" + s, "-->") && !Quiet(s, 2) {
      LoudCloses("", s, 2);
    }
  }

  /** The loop meets no '>' after two hyphens. */
  predicate Quiet(s: string, hyphens: nat) {
    s == [] || (!(s[0] == '>' && hyphens >= 2) && Quiet(s[1..], Hyphens(hyphens, s[0])))
  }

  lemma {:induction false} CommentUnchangedFrom(s: string, hyphens: nat)
    ensures CommentBody(s, hyphens) == s <==> Quiet(s, hyphens)
    ensures |CommentBody(s, hyphens)| >= |s|
    decreases |s|
  {
    if s != [] {
      var h := Hyphens(hyphens, s[0]);
      CommentUnchangedFrom(s[1..], h);
      CommentUnchangedFrom(s[1..], 0);
      assert s == [s[0]] + s[1..];
      if s[0] == '>' && hyphens >= 2 {
        assert |CommentBody(s, hyphens)| > |s|;
      } else if CommentBody(s, hyphens) == s {
        assert CommentBody(s, hyphens)[1..] == s[1..];
      }
    }
  }

  /** `hyphens` is right for the output "--" followed by `done`. */
  ghost predicate Counts(done: string, hyphens: nat) {
    var t := "--" + done;
    && (hyphens >= 2 <==> t[|t| - 1] == '-' && t[|t| - 2] == '-')
    && (hyphens >= 1 <==> t[|t| - 1] == '-')
  }

  lemma CountsStep(done: string, hyphens: nat, c: char)
    requires Counts(done, hyphens)
    ensures Counts(done + [c], Hyphens(hyphens, c))
  {
    var t, u := "--" + done, "--" + (done + [c]);
    assert u == t + [c];
  }

  lemma {:induction false} QuietNoClose(done: string, s: string, hyphens: nat, i: nat)
    requires Counts(done, hyphens) && Quiet(s, hyphens)
    requires |done| <= i && i + 3 <= |"--" + done + s|
    ensures var t := "--" + done + s; !(t[i] == '-' && t[i + 1] == '-' && t[i + 2] == '>')
    decreases |s|
  {
    var t, u := "--" + done + s, "--" + done;
    assert t == u + s && t[i + 2] == s[i - |done|];
    if i == |done| {
      assert t[i] == u[|u| - 2] && t[i + 1] == u[|u| - 1];
    } else {
      CountsStep(done, hyphens, s[0]);
      assert "--" + (done + [s[0]]) + s[1..] == t;
      QuietNoClose(done + [s[0]], s[1..], Hyphens(hyphens, s[0]), i);
    }
  }

  lemma {:induction false} LoudCloses(done: string, s: string, hyphens: nat)
    requires Counts(done, hyphens) && !Quiet(s, hyphens)
    ensures Contains("--" + done + s, "-->")
    decreases |s|
  {
    var t := "--" + done + s;
    if s[0] == '>' && hyphens >= 2 {
      var i := |done|;
      assert t[i] == ("--" + done)[i] && t[i + 1] == ("--" + done)[i + 1] && t[i + 2] == s[0];
      assert t[i..i + 3] == "-->";
      assert OccursAt(t, "-->", i);
    } else {
      CountsStep(done, hyphens, s[0]);
      LoudCloses(done + [s[0]], s[1..], Hyphens(hyphens, s[0]));
      assert "--" + (done + [s[0]]) + s[1..] == t;
    }
  }

  // ------------------------------------------------------------------- reader

  function Unescape(s: string): string
    decreases |s|
  {
    if s == [] then []
    else if "&amp;" <= s then "&" + Unescape(s[5..])
    else if "&lt;" <= s then "<" + Unescape(s[4..])
    else if "&gt;" <= s then ">" + Unescape(s[4..])
    else if "&quot;" <= s then "\"" + Unescape(s[6..])
    else if "&nbsp;" <= s then [NBSP] + Unescape(s[6..])
    else [s[0]] + Unescape(s[1..])
  }

  /** A tag name ends at the first space or '>'. */
  function TagSpan(s: string): (string, string) {
    if s == [] || s[0] == ' ' || s[0] == '>' then ([], s)
    else
      var r := TagSpan(s[1..]);
      ([s[0]] + r.0, r.1)
  }

  function ReadAttribute(s: string): Option<(Attribute, string)> {
    var name := Span(s, '=');
    var open := Expect(name.1, "=\"");
    if open.None? then None else
    var value := Span(open.value, '"');
    var close := Expect(value.1, "\"");
    if close.None? then None else Some((Attribute(name.0, Unescape(value.0)), close.value))
  }

  /** Attributes up to and including the '>' that ends the open tag. */
  function ReadAttributes(s: string): Option<(seq<Attribute>, string)>
    decreases |s|
  {
    var end := Expect(s, ">");
    if end.Some? then Some(([], end.value)) else
    var next := Expect(s, " ");
    if next.None? then None else
    var first := ReadAttribute(next.value);
    if first.None? || |first.value.1| >= |s| then None else
    var others := ReadAttributes(first.value.1);
    if others.None? then None else Some(([first.value.0] + others.value.0, others.value.1))
  }

  function ReadCloseTag(s: string, tag: string): Option<string> {
    var a := Expect(s, "</");
    if a.None? then None else
    var b := Expect(a.value, tag);
    if b.None? then None else Expect(b.value, ">")
  }

  function ReadRaw(s: string, tag: string): Option<(seq<Node>, string)> {
    var raw := ReadUntil(s, "</");
    if raw.None? then None else
    var b := Expect(raw.value.1, tag);
    if b.None? then None else
    var c := Expect(b.value, ">");
    if c.None? then None else Some((if raw.value.0 == [] then [] else [Text(raw.value.0)], c.value))
  }

  function ReadElement(s: string, scripting: Scripting): Option<(Node, string)>
    decreases |s|, 0
  {
    var tag := TagSpan(s);
    var attributes := ReadAttributes(tag.1);
    if attributes.None? || |attributes.value.1| >= |s| then None
    else
      var (list, inside) := attributes.value;
      if IsVoid(tag.0) then Some((Element(tag.0, list, []), inside))
      else if IsRawText(tag.0, scripting) then
        var raw := ReadRaw(inside, tag.0);
        if raw.None? then None else Some((Element(tag.0, list, raw.value.0), raw.value.1))
      else
        var children := ReadNodes(inside, scripting);
        if children.None? then None else
        var after := ReadCloseTag(children.value.1, tag.0);
        if after.None? then None else Some((Element(tag.0, list, children.value.0), after.value))
  }

  function ReadNode(s: string, scripting: Scripting): Option<(Node, string)>
    decreases |s|, 1
  {
    var comment := Expect(s, "<!--");
    if comment.Some? then
      var contents := ReadUntil(comment.value, "-->");
      if contents.None? then None else Some((Comment(contents.value.0), contents.value.1))
    else
      var open := Expect(s, "<");
      if open.Some? then
        if |open.value| >= |s| then None else ReadElement(open.value, scripting)
      else
        var text := Span(s, '<');
        Some((Text(Unescape(text.0)), text.1))
  }

  /** Sibling nodes up to a close tag or the end. */
  function ReadNodes(s: string, scripting: Scripting): Option<(seq<Node>, string)>
    decreases |s|, 2
  {
    if s == [] || "</" <= s then Some(([], s))
    else
      var first := ReadNode(s, scripting);
      if first.None? || |first.value.1| >= |s| then None else
      var others := ReadNodes(first.value.1, scripting);
      if others.None? then None else Some(([first.value.0] + others.value.0, others.value.1))
  }

  // -------------------------------------------------------- well-formed trees

  predicate TagName(tag: string) {
    tag != [] && ' ' !in tag && '>' !in tag && tag[0] != '/' && tag[0] != '!'
  }

  ghost predicate RawChildren(children: seq<Node>) {
    || children == []
    || (|children| == 1 && children[0].Text? && children[0].text != [] && !Contains(children[0].text, "</"))
  }

  predicate NoAdjacentText(nodes: seq<Node>) {
    forall i :: 0 <= i < |nodes| - 1 ==> !(nodes[i].Text? && nodes[i + 1].Text?)
  }

  /** Element, text and comment trees whose serialization can be told apart. */
  ghost predicate WellFormed(node: Node, scripting: Scripting)
    decreases node, 1
  {
    match node
    case Text(text) => text != []
    case Comment(contents) => CommentBody(contents, 2) == contents
    case Element(tag, attributes, children) =>
      && TagName(tag)
      && (forall i :: 0 <= i < |attributes| ==> '=' !in attributes[i].name)
      && (if IsVoid(tag) then children == []
          else if IsRawText(tag, scripting) then RawChildren(children)
          else WellFormedAll(children, scripting))
    case _ => false
  }

  ghost predicate WellFormedAll(nodes: seq<Node>, scripting: Scripting)
    decreases nodes, 0
  {
    && NoAdjacentText(nodes)
    && forall i :: 0 <= i < |nodes| ==> WellFormed(nodes[i], scripting)
  }

  // -------------------------------------------------------------- the theorem

  lemma {:induction false} CommentBodyCons(c: char, rest: string, hyphens: nat)
    requires c != '>' || hyphens < 2
    ensures CommentBody([c] + rest, hyphens) == [c] + CommentBody(rest, Hyphens(hyphens, c))
  {
    assert ([c] + rest)[1..] == rest;
  }

  lemma {:induction false} CommentEscapeStays(rest: string, hyphens: nat)
    ensures CommentBody("&gt;" + rest, hyphens) == "&gt;" + CommentBody(rest, 0)
  {
    assert "&gt;" + rest == ['&'] + (['g'] + (['t'] + ([';'] + rest)));
    CommentBodyCons('&', ['g'] + (['t'] + ([';'] + rest)), hyphens);
    CommentBodyCons('g', ['t'] + ([';'] + rest), 0);
    CommentBodyCons('t', [';'] + rest, 0);
    CommentBodyCons(';', rest, 0);
    assert ['&'] + (['g'] + (['t'] + ([';'] + CommentBody(rest, 0)))) == "&gt;" + CommentBody(rest, 0);
  }

  /** The comment loop leaves its own output alone ... */
  lemma {:induction false} CommentIdempotent(s: string, hyphens: nat)
    ensures CommentBody(CommentBody(s, hyphens), hyphens) == CommentBody(s, hyphens)
  {
    if s != [] {
      if s[0] == '>' && hyphens >= 2 {
        CommentIdempotent(s[1..], 0);
        CommentEscapeStays(CommentBody(s[1..], 0), hyphens);
      } else {
        CommentIdempotent(s[1..], Hyphens(hyphens, s[0]));
        CommentBodyCons(s[0], CommentBody(s[1..], Hyphens(hyphens, s[0])), hyphens);
      }
    }
  }

  /** ... so whatever the contents, after the opening it never spells "-->". */
  lemma {:induction false} CommentNeverCloses(s: string)
    ensures !Contains("--" + CommentBody(s, 2), "-->")
  {
    CommentIdempotent(s, 2);
    CommentUnchanged(CommentBody(s, 2));
  }

  // ---- where an HTML parser ends the comment

  /**
   The comment states of the tokenizer of the HTML Standard after "<!--". The four
   less-than states are left out: they only report errors and then go on as these do.
   */
  datatype CommentState = Start | StartDash | Within | EndDash | End | EndBang

  /** Whether the character closes the comment in this state. */
  predicate Closes(state: CommentState, c: char) {
    c == '>' && state != Within && state != EndDash
  }

  function After(state: CommentState, c: char): CommentState {
    if c == '-' then
      match state
      case Start => StartDash
      case StartDash => End
      case Within => EndDash
      case EndDash => End
      case End => End
      case EndBang => EndDash
    else if c == '!' && state == End then EndBang
    else Within
  }

  /** How many characters the tokenizer takes up to and with the end of the comment. */
  function CommentEnd(state: CommentState, s: string): Option<nat>
    decreases |s|
  {
    if s == [] then None
    else if Closes(state, s[0]) then Some(1)
    else
      var more := CommentEnd(After(state, s[0]), s[1..]);
      if more.None? then None else Some(1 + more.value)
  }

  /** The hyphens the serializer sees where the tokenizer is in this state. */
  function HyphensIn(state: CommentState): nat {
    match state
    case Start => 2
    case StartDash => 2
    case Within => 0
    case EndDash => 1
    case End => 2
    case EndBang => 0
  }

  /** No '>' of the contents meets the tokenizer after "--!"; one after "--" is escaped. */
  predicate Survives(state: CommentState, s: string)
    decreases |s|
  {
    s == [] || (!(state == EndBang && s[0] == '>') && Survives(After(state, s[0]), s[1..]))
  }

  lemma {:induction false} CommentEndCons(state: CommentState, c: char, rest: string)
    ensures CommentEnd(state, [c] + rest) ==
            if Closes(state, c) then Some(1)
            else
              var more := CommentEnd(After(state, c), rest);
              if more.None? then None else Some(1 + more.value)
  {
    assert ([c] + rest)[1..] == rest;
  }

  lemma {:induction false} CommentEndEscape(state: CommentState, rest: string)
    ensures CommentEnd(state, "&gt;" + rest) ==
            var more := CommentEnd(Within, rest);
            if more.None? then None else Some(4 + more.value)
  {
    assert "&gt;" + rest == ['&'] + (['g'] + (['t'] + ([';'] + rest)));
    CommentEndCons(state, '&', ['g'] + (['t'] + ([';'] + rest)));
    CommentEndCons(Within, 'g', ['t'] + ([';'] + rest));
    CommentEndCons(Within, 't', [';'] + rest);
    CommentEndCons(Within, ';', rest);
  }

  lemma {:induction false} CommentEndCloser(state: CommentState, rest: string)
    ensures CommentEnd(state, "-->" + rest) == Some(3)
  {
    assert "-->" + rest == ['-'] + (['-'] + (['>'] + rest));
    CommentEndCons(state, '-', ['-'] + (['>'] + rest));
    var once := After(state, '-');
    CommentEndCons(once, '-', ['>'] + rest);
    assert After(once, '-') == End;
    CommentEndCons(End, '>', rest);
  }

  /** A written comment ends at its closer, or before it exactly when the contents do not survive. */
  lemma {:induction false} WrittenEnds(state: CommentState, s: string, rest: string)
    ensures var body := CommentBody(s, HyphensIn(state));
            var end := CommentEnd(state, body + ("-->" + rest));
            && (Survives(state, s) ==> end == Some(|body| + 3))
            && (!Survives(state, s) ==> end.Some? && end.value <= |body|)
    decreases |s|
  {
    var body, tail := CommentBody(s, HyphensIn(state)), "-->" + rest;
    if s == [] {
      assert body + tail == tail;
      CommentEndCloser(state, rest);
    } else {
      var c, next := s[0], After(state, s[0]);
      WrittenEnds(next, s[1..], rest);
      var more := CommentBody(s[1..], HyphensIn(next));
      assert Hyphens(HyphensIn(state), c) == HyphensIn(next);
      if c == '>' && HyphensIn(state) >= 2 {
        Assoc("&gt;", more, tail);
        CommentEndEscape(state, more + tail);
      } else {
        Assoc([c], more, tail);
        CommentEndCons(state, c, more + tail);
      }
    }
  }

  predicate Ends(s: string, suffix: string) { |suffix| <= |s| && s[|s| - |suffix|..] == suffix }

  /** The state tells how the contents read so far end: in one hyphen, in two, in "--!". */
  predicate Shape(state: CommentState, dash: bool, dashes: bool, bang: bool) {
    && (dashes ==> dash)
    && (state == End <==> dashes)
    && (state == EndBang <==> bang)
    && (state == StartDash || state == EndDash <==> dash && !dashes)
  }

  ghost predicate Reached(done: string, state: CommentState) {
    Shape(state, Ends(done, "-"), Ends(done, "--"), Ends(done, "--!"))
  }

  lemma ShapeStep(state: CommentState, dash: bool, dashes: bool, bang: bool, c: char)
    requires Shape(state, dash, dashes, bang)
    ensures Shape(After(state, c), c == '-', c == '-' && dash, c == '!' && dashes)
  {
  }

  lemma EndsPush(done: string, c: char)
    ensures Ends(done + [c], "-") <==> c == '-'
    ensures Ends(done + [c], "--") <==> c == '-' && Ends(done, "-")
    ensures Ends(done + [c], "--!") <==> c == '!' && Ends(done, "--")
    ensures Ends(done + [c], "--!>") <==> c == '>' && Ends(done, "--!")
  {
    SuffixPush(done, "", c, '-', "-");
    SuffixPush(done, "-", c, '-', "--");
    SuffixPush(done, "--", c, '!', "--!");
    SuffixPush(done, "--!", c, '>', "--!>");
  }

  lemma SuffixPush(done: string, suffix: string, c: char, d: char, longer: string)
    requires longer == suffix + [d]
    ensures Ends(done + [c], longer) <==> c == d && Ends(done, suffix)
  {
    var t := done + [c];
    if |suffix| <= |done| {
      var tail := done[|done| - |suffix|..];
      assert t[|t| - |longer|..] == tail + [c];
      assert (tail + [c])[|suffix|] == c && longer[|suffix|] == d;
      assert (tail + [c])[..|suffix|] == tail && longer[..|suffix|] == suffix;
    }
  }

  lemma ContainsPush(done: string, c: char, pattern: string)
    requires pattern != ""
    ensures Contains(done + [c], pattern) <==> Contains(done, pattern) || Ends(done + [c], pattern)
  {
    var t := done + [c];
    if Contains(done, pattern) {
      var i :| 0 <= i <= |done| && OccursAt(done, pattern, i);
      assert t[i..i + |pattern|] == done[i..i + |pattern|];
      assert OccursAt(t, pattern, i);
    }
    if Ends(t, pattern) {
      assert t[|t| - |pattern|..] == t[|t| - |pattern|..|t| - |pattern| + |pattern|];
      assert OccursAt(t, pattern, |t| - |pattern|);
    }
    if Contains(t, pattern) {
      var i :| 0 <= i <= |t| && OccursAt(t, pattern, i);
      if i + |pattern| == |t| {
        assert t[i..i + |pattern|] == t[|t| - |pattern|..];
      } else {
        assert t[i..i + |pattern|] == done[i..i + |pattern|];
        assert OccursAt(done, pattern, i);
      }
    }
  }

  lemma {:induction false} ContainsMore(done: string, s: string, pattern: string)
    requires Contains(done, pattern)
    ensures Contains(done + s, pattern)
  {
    var i :| 0 <= i <= |done| && OccursAt(done, pattern, i);
    assert (done + s)[i..i + |pattern|] == done[i..i + |pattern|];
    assert OccursAt(done + s, pattern, i);
  }

  lemma ReachedStep(done: string, state: CommentState, c: char)
    requires Reached(done, state)
    ensures Reached(done + [c], After(state, c))
  {
    EndsPush(done, c);
    ShapeStep(state, Ends(done, "-"), Ends(done, "--"), Ends(done, "--!"), c);
  }

  lemma BangStep(done: string, state: CommentState, c: char)
    requires Reached(done, state) && !Contains(done, "--!>")
    ensures Contains(done + [c], "--!>") <==> state == EndBang && c == '>'
  {
    EndsPush(done, c);
    ContainsPush(done, c, "--!>");
  }

  lemma {:induction false} SurvivesExact(done: string, s: string, all: string, state: CommentState)
    requires all == done + s && Reached(done, state) && !Contains(done, "--!>")
    ensures Survives(state, s) <==> !Contains(all, "--!>")
    decreases |s|
  {
    if s == [] {
      assert all == done;
    } else {
      var c := s[0];
      assert all == (done + [c]) + s[1..];
      BangStep(done, state, c);
      if state == EndBang && c == '>' {
        ContainsMore(done + [c], s[1..], "--!>");
      } else {
        ReachedStep(done, state, c);
        SurvivesExact(done + [c], s[1..], all, After(state, c));
      }
    }
  }

  /** A parser reads a written comment to its end exactly when the contents do not contain "--!>". */
  lemma {:induction false} CommentSurvives(s: string, rest: string)
    ensures CommentEnd(Start, CommentBody(s, 2) + ("-->" + rest)) == Some(|CommentBody(s, 2)| + 3) <==>
            !Contains(s, "--!>")
  {
    WrittenEnds(Start, s, rest);
    assert "" + s == s;
    SurvivesExact("", s, s, Start);
  }

  /** The loop writes "a--!>b" as it is ... */
  lemma {:induction false} BangUnescaped()
    ensures CommentBody("a--!>b", 2) == "a--!>b"
  {
    CommentBodyCons('a', "--!>b", 2);
    CommentBodyCons('-', "-!>b", 0);
    CommentBodyCons('-', "!>b", 1);
    CommentBodyCons('!', ">b", 2);
    CommentBodyCons('>', "b", 0);
    CommentBodyCons('b', "", 0);
    assert "a--!>b" == ['a'] + "--!>b" && "--!>b" == ['-'] + "-!>b" && "-!>b" == ['-'] + "!>b";
    assert "!>b" == ['!'] + ">b" && ">b" == ['>'] + "b" && "b" == ['b'] + "";
  }

  lemma {:induction false} BangTokens(tail: string)
    ensures CommentEnd(Start, ['a'] + (['-'] + (['-'] + (['!'] + (['>'] + tail))))) == Some(5)
  {
    var five := ['>'] + tail;
    var four := ['!'] + five;
    var three := ['-'] + four;
    CommentEndCons(Start, 'a', ['-'] + three);
    CommentEndCons(Within, '-', three);
    CommentEndCons(EndDash, '-', four);
    CommentEndCons(End, '!', five);
    CommentEndCons(EndBang, '>', tail);
  }

  lemma BangSpelled(tail: string)
    ensures "a--!>b" + tail == ['a'] + (['-'] + (['-'] + (['!'] + (['>'] + (['b'] + tail)))))
  {
  }

  /** ... and a parser ends that comment after five characters. */
  lemma {:induction false} BangCloses(rest: string)
    ensures CommentEnd(Start, CommentBody("a--!>b", 2) + ("-->" + rest)) == Some(5)
  {
    BangUnescaped();
    BangSpelled("-->" + rest);
    BangTokens(['b'] + ("-->" + rest));
  }

  lemma {:induction false} UnescapeText(s: string)
    ensures Unescape(EscapeText(s)) == s
    ensures '<' !in EscapeText(s)
  {
    if s != [] {
      UnescapeText(s[1..]);
      UnescapeTextStep(s[0], EscapeText(s[1..]));
      assert s == [s[0]] + s[1..];
    }
  }

  lemma {:induction false} UnescapeTextStep(c: char, rest: string)
    ensures Unescape(TextCharacter(c) + rest) == [c] + Unescape(rest)
  {
    var e := TextCharacter(c);
    var s := e + rest;
    assert s[|e|..] == rest;
    assert s[0] == e[0];
    if c == '<' || c == '>' || c == NBSP {
      assert s[1] == e[1];
    }
  }

  lemma {:induction false} UnescapeAttribute(s: string)
    ensures Unescape(EscapeAttribute(s)) == s
    ensures '"' !in EscapeAttribute(s)
  {
    if s != [] {
      UnescapeAttribute(s[1..]);
      UnescapeAttributeStep(s[0], EscapeAttribute(s[1..]));
      assert s == [s[0]] + s[1..];
    }
  }

  lemma {:induction false} UnescapeAttributeStep(c: char, rest: string)
    ensures Unescape(AttributeCharacter(c) + rest) == [c] + Unescape(rest)
  {
    var e := AttributeCharacter(c);
    var s := e + rest;
    assert s[|e|..] == rest;
    assert s[0] == e[0];
    if c == '"' || c == NBSP {
      assert s[1] == e[1];
    }
  }

  lemma {:induction false} TagReads(tag: string, rest: string)
    requires ' ' !in tag && '>' !in tag && rest != [] && (rest[0] == ' ' || rest[0] == '>')
    ensures TagSpan(tag + rest) == (tag, rest)
  {
    if tag == [] {
      assert tag + rest == rest;
    } else {
      TagReads(tag[1..], rest);
      assert tag == [tag[0]] + tag[1..];
      assert (tag + rest)[1..] == tag[1..] + rest;
    }
  }

  lemma AttributeReads(a: Attribute, rest: string)
    requires '=' !in a.name
    ensures ReadAttribute(a.name + ("=\"" + (EscapeAttribute(a.value) + ("\"" + rest)))) == Some((a, rest))
  {
    var value := EscapeAttribute(a.value) + ("\"" + rest);
    assert ("=\"" + value)[0] == '=';
    SpanReads(a.name, '=', "=\"" + value);
    ExpectReads("=\"", value);
    UnescapeAttribute(a.value);
    SpanReads(EscapeAttribute(a.value), '"', "\"" + rest);
    ExpectReads("\"", rest);
  }

  lemma {:induction false} AttributesRead(attributes: seq<Attribute>, rest: string)
    requires forall i :: 0 <= i < |attributes| ==> '=' !in attributes[i].name
    ensures ReadAttributes(Attributes(attributes, ">" + rest)) == Some((attributes, rest))
    ensures |Attributes(attributes, ">" + rest)| > |rest|
    ensures Attributes(attributes, ">" + rest)[0] in " >"
  {
    if attributes == [] {
      ExpectReads(">", rest);
    } else {
      var a := attributes[0];
      var others := Attributes(attributes[1..], ">" + rest);
      AttributesRead(attributes[1..], rest);
      var inside := a.name + ("=\"" + (EscapeAttribute(a.value) + ("\"" + others)));
      assert (" " + inside)[0] == ' ';
      ExpectReads(" ", inside);
      AttributeReads(a, others);
      assert attributes == [a] + attributes[1..];
    }
  }

  lemma CloseReads(tag: string, rest: string)
    ensures ReadCloseTag(CloseTag(tag, rest), tag) == Some(rest)
    ensures "</" <= CloseTag(tag, rest)
  {
    ExpectReads("</", tag + (">" + rest));
    ExpectReads(tag, ">" + rest);
    ExpectReads(">", rest);
  }

  lemma {:induction false} RawReads(children: seq<Node>, scripting: Scripting, tag: string, rest: string)
    requires RawChildren(children)
    ensures ReadRaw(SerializeRawAll(children, scripting, CloseTag(tag, rest)), tag) == Some((children, rest))
  {
    var raw := if children == [] then "" else children[0].text;
    var s := SerializeRawAll(children, scripting, CloseTag(tag, rest));
    assert s == raw + CloseTag(tag, rest) by {
      if children == [] {
        assert "" + CloseTag(tag, rest) == CloseTag(tag, rest);
      } else {
        assert SerializeRawAll(children[1..], scripting, CloseTag(tag, rest)) == CloseTag(tag, rest);
      }
    }
    assert !Contains("", "</");
    assert Unbordered("</");
    assert children == if raw == [] then [] else [Text(raw)];
    UntilReads(raw, "</", tag + (">" + rest));
    ExpectReads(tag, ">" + rest);
    ExpectReads(">", rest);
  }

  /** What may follow a list of siblings: nothing, or a close tag. */
  ghost predicate Boundary(rest: string) { rest == [] || "</" <= rest }

  /** Whether a text node may be followed by `after`. */
  ghost predicate StartsTag(after: string) { after == [] || after[0] == '<' }

  lemma {:induction false} CommentReads(contents: string, scripting: Scripting, rest: string)
    requires CommentBody(contents, 2) == contents
    ensures ReadNode(Serialize(Comment(contents), scripting, None, rest), scripting) == Some((Comment(contents), rest))
  {
    CommentUnchanged(contents);
    assert !Contains(contents, "-->") by {
      if Contains(contents, "-->") {
        ContainsLonger("--", contents, "-->");
      }
    }
    ExpectReads("<!--", contents + ("-->" + rest));
    UntilReadsLast(contents, "-->", rest);
  }

  lemma ContainsLonger(pre: string, s: string, pattern: string)
    requires Contains(s, pattern)
    ensures Contains(pre + s, pattern)
  {
    var i :| 0 <= i <= |s| && OccursAt(s, pattern, i);
    assert (pre + s)[|pre| + i..|pre| + i + |pattern|] == s[i..i + |pattern|];
    assert OccursAt(pre + s, pattern, |pre| + i);
  }

  lemma {:induction false} TextReads(text: string, scripting: Scripting, after: string)
    requires text != [] && StartsTag(after)
    ensures ReadNode(EscapeText(text) + after, scripting) == Some((Text(text), after))
    ensures EscapeText(text) != [] && EscapeText(text)[0] != '<'
  {
    UnescapeText(text);
    var s := EscapeText(text) + after;
    assert EscapeText(text) != [] by {
      assert TextCharacter(text[0]) != [];
    }
    assert EscapeText(text)[0] in EscapeText(text);
    assert s[0] != '<';
    SpanReads(EscapeText(text), '<', after);
  }

  lemma {:induction false} ElementReads(node: Node, scripting: Scripting, rest: string)
    requires node.Element? && WellFormed(node, scripting)
    ensures ReadElement(Serialize(node, scripting, None, rest)[1..], scripting) == Some((node, rest))
    ensures Serialize(node, scripting, None, rest)[0] == '<'
    ensures |Serialize(node, scripting, None, rest)| > |rest|
    decreases node, 0
  {
    var Element(tag, attributes, children) := node;
    var inside := if IsVoid(tag) then rest
                  else if IsRawText(tag, scripting) then SerializeRawAll(children, scripting, CloseTag(tag, rest))
                  else SerializeAll(children, scripting, Some(tag), CloseTag(tag, rest));
    var afterTag := Attributes(attributes, ">" + inside);
    AttributesRead(attributes, inside);
    TagReads(tag, afterTag);
    assert ("<" + (tag + afterTag))[1..] == tag + afterTag;
    if IsVoid(tag) {
    } else if IsRawText(tag, scripting) {
      RawReads(children, scripting, tag, rest);
      RawLonger(children, scripting, CloseTag(tag, rest));
    } else {
      CloseReads(tag, rest);
      NodesRead(children, scripting, tag, CloseTag(tag, rest));
    }
  }

  lemma {:induction false} RawLonger(children: seq<Node>, scripting: Scripting, rest: string)
    requires RawChildren(children)
    ensures |SerializeRawAll(children, scripting, rest)| >= |rest|
  {
    if children != [] {
      assert SerializeRawAll(children[1..], scripting, rest) == rest;
    }
  }

  lemma {:induction false} NodeReads(node: Node, scripting: Scripting, parent: string, after: string)
    requires WellFormed(node, scripting) && !IsRawText(parent, scripting)
    requires node.Text? ==> StartsTag(after)
    ensures var s := Serialize(node, scripting, Some(parent), after);
            ReadNode(s, scripting) == Some((node, after)) && |s| > |after| && !("</" <= s)
            && (!node.Text? ==> s[0] == '<')
    decreases node, 1
  {
    var s := Serialize(node, scripting, Some(parent), after);
    match node
    case Text(text) => TextReads(text, scripting, after);
    case Comment(contents) =>
      CommentReads(contents, scripting, after);
      assert s[1] == '!';
    case Element(tag, attributes, children) =>
      ParentOnlyMattersForText(node, scripting, Some(parent), None, after);
      ElementReads(node, scripting, after);
      assert s[1] == tag[0];
      assert s == "<" + s[1..];
      ExpectReads("<", s[1..]);
  }

  lemma {:induction false} WellFormedTail(nodes: seq<Node>, scripting: Scripting)
    requires nodes != [] && WellFormedAll(nodes, scripting)
    ensures WellFormed(nodes[0], scripting) && WellFormedAll(nodes[1..], scripting)
    ensures nodes[0].Text? && nodes[1..] != [] ==> !nodes[1..][0].Text?
  {
    var others := nodes[1..];
    assert forall i :: 0 <= i < |others| ==> others[i] == nodes[i + 1];
    if nodes[0].Text? && others != [] {
      assert !(nodes[0].Text? && nodes[0 + 1].Text?);
    }
  }

  lemma {:induction false} NodesRead(nodes: seq<Node>, scripting: Scripting, parent: string, rest: string)
    requires WellFormedAll(nodes, scripting) && !IsRawText(parent, scripting) && Boundary(rest)
    ensures var s := SerializeAll(nodes, scripting, Some(parent), rest);
            ReadNodes(s, scripting) == Some((nodes, rest)) && |s| >= |rest|
            && (nodes == [] || !nodes[0].Text? ==> StartsTag(s))
    decreases nodes, 2
  {
    if nodes == [] {
      assert rest != [] ==> rest[0] == '<';
    } else {
      var others := nodes[1..];
      WellFormedTail(nodes, scripting);
      NodesRead(others, scripting, parent, rest);
      var after := SerializeAll(others, scripting, Some(parent), rest);
      NodeReads(nodes[0], scripting, parent, after);
      assert nodes == [nodes[0]] + others;
    }
  }

  /** The outer form of a well-formed element reads back to that element. */
  lemma {:induction false} OuterReadsBack(node: Node, scripting: Scripting)
    requires node.Element? && WellFormed(node, scripting)
    ensures ReadNode(Serialize(node, scripting, None, ""), scripting) == Some((node, ""))
  {
    NodeReads(node, scripting, "", "");
    ParentOnlyMattersForText(node, scripting, Some(""), None, "");
  }

  /** The inner form of a well-formed, ordinary element reads back to its children. */
  lemma {:induction false} InnerReadsBack(node: Node, scripting: Scripting)
    requires node.Element? && WellFormed(node, scripting)
    requires !IsVoid(node.tag) && !IsRawText(node.tag, scripting)
    ensures ReadNodes(Inner(node, scripting, ""), scripting) == Some((node.children, ""))
  {
    NodesRead(node.children, scripting, node.tag, "");
  }

  /** The inner form of a well-formed raw-text element is its text, if it has any. */
  lemma {:induction false} RawInnerReadsBack(node: Node, scripting: Scripting)
    requires node.Element? && WellFormed(node, scripting) && !IsVoid(node.tag) && IsRawText(node.tag, scripting)
    ensures node.children ==
            if Inner(node, scripting, "") == "" then [] else [Text(Inner(node, scripting, ""))]
  {
    if node.children != [] {
      var child := node.children[0];
      assert node.children == [child] && node.children[1..] == [];
      assert SerializeAll(node.children[1..], scripting, Some(node.tag), "") == "";
      assert Inner(node, scripting, "") == Serialize(child, scripting, Some(node.tag), "");
      assert Serialize(child, scripting, Some(node.tag), "") == child.text + "" == child.text;
      assert child == Text(child.text);
    } else {
      assert SerializeAll([], scripting, Some(node.tag), "") == "";
    }
  }

  /** So distinct well-formed elements have distinct outer forms. */
  lemma {:induction false} OuterInjective(a: Node, b: Node, scripting: Scripting)
    requires a.Element? && b.Element? && WellFormed(a, scripting) && WellFormed(b, scripting)
    requires Serialize(a, scripting, None, "") == Serialize(b, scripting, None, "")
    ensures a == b
  {
    OuterReadsBack(a, scripting);
    OuterReadsBack(b, scripting);
  }

  // ------------------------------------------------- appending to a buffer

  /** Append `text`; `goal` is the whole output wanted, `rest` what remains to be appended. */
  method Push(out: string, text: string, ghost rest: string, ghost goal: string) returns (r: string)
    requires out + (text + rest) == goal
    ensures r == out + text && r + rest == goal
  {
    r := out + text;
    Assoc(out, text, rest);
  }

  method PushEscapedText(text: string, out: string) returns (r: string)
    ensures r == out + EscapeText(text)
  {
    r := out;
    for i := 0 to |text|
      invariant r + EscapeText(text[i..]) == out + EscapeText(text)
    {
      assert text[i..][1..] == text[i + 1..];
      Assoc(r, TextCharacter(text[i]), EscapeText(text[i + 1..]));
      r := r + match text[i]
               case '&' => "&amp;"
               case '<' => "&lt;"
               case '>' => "&gt;"
               case c => if c == NBSP then "&nbsp;" else [c];
    }
  }

  method PushEscapedAttribute(value: string, out: string) returns (r: string)
    ensures r == out + EscapeAttribute(value)
  {
    r := out;
    for i := 0 to |value|
      invariant r + EscapeAttribute(value[i..]) == out + EscapeAttribute(value)
    {
      assert value[i..][1..] == value[i + 1..];
      Assoc(r, AttributeCharacter(value[i]), EscapeAttribute(value[i + 1..]));
      r := r + match value[i]
               case '&' => "&amp;"
               case '"' => "&quot;"
               case c => if c == NBSP then "&nbsp;" else [c];
    }
  }

  /** The source's loop inspects, pops and pushes the shared output buffer. */
  method PushCommentContents(contents: string, out: string) returns (r: string)
    requires Ends(out, "--")
    ensures r == out + CommentBody(contents, 2)
  {
    r := out;
    ghost var hyphens: nat := 2;
    for i := 0 to |contents|
      invariant |r| >= 2
      invariant hyphens >= 2 <==> r[|r| - 1] == '-' && r[|r| - 2] == '-'
      invariant hyphens >= 1 <==> r[|r| - 1] == '-'
      invariant r + CommentBody(contents[i..], hyphens) == out + CommentBody(contents, 2)
    {
      var c := contents[i];
      assert contents[i..][1..] == contents[i + 1..];
      if c == '>' && Ends(r, "--") {
        Assoc(r, "&gt;", CommentBody(contents[i + 1..], 0));
        assert r == r[..|r| - 2] + "--";
        assert r[..|r| - 2] + "--&gt;" == r + "&gt;";
        r := r[..|r| - 2] + "--&gt;";
        hyphens := 0;
      } else {
        assert !(c == '>' && hyphens >= 2) by {
          assert hyphens >= 2 ==> r[|r| - 2..] == "--";
        }
        Assoc(r, [c], CommentBody(contents[i + 1..], Hyphens(hyphens, c)));
        hyphens := Hyphens(hyphens, c);
        r := r + [c];
      }
    }
  }

  method PushAttributes(attributes: seq<Attribute>, out: string, ghost rest: string, ghost goal: string)
    returns (r: string)
    requires out + Attributes(attributes, rest) == goal
    ensures r + rest == goal
  {
    r := out;
    for i := 0 to |attributes|
      invariant r + Attributes(attributes[i..], rest) == goal
    {
      assert attributes[i..][1..] == attributes[i + 1..];
      var a := attributes[i];
      ghost var others := Attributes(attributes[i + 1..], rest);
      ghost var value := EscapeAttribute(a.value) + ("\"" + others);
      r := Push(r, " ", a.name + ("=\"" + value), goal);
      r := Push(r, a.name, "=\"" + value, goal);
      r := Push(r, "=\"", value, goal);
      ghost var before := r;
      r := PushEscapedAttribute(a.value, r);
      Assoc(before, EscapeAttribute(a.value), "\"" + others);
      r := Push(r, "\"", others, goal);
    }
  }

  method PushCloseTag(tag: string, out: string, ghost rest: string, ghost goal: string) returns (r: string)
    requires out + CloseTag(tag, rest) == goal
    ensures r + rest == goal
  {
    r := Push(out, "</", tag + (">" + rest), goal);
    r := Push(r, tag, ">" + rest, goal);
    r := Push(r, ">", rest, goal);
  }

  method SerializeNodeInner(node: Node, scripting: Scripting, parent: Option<string>, out: string,
                            ghost rest: string, ghost goal: string) returns (r: string)
    requires out + Serialize(node, scripting, parent, rest) == goal
    ensures r + rest == goal
    decreases node, 1
  {
    match node
    case Document(children) => r := SerializeList(children, scripting, None, out, rest, goal);
    case Doctype(name) =>
      r := Push(out, "<!doctype ", name + (">" + rest), goal);
      r := Push(r, name, ">" + rest, goal);
      r := Push(r, ">", rest, goal);
    case Text(text) =>
      if parent.Some? && IsRawText(parent.value, scripting) {
        r := Push(out, text, rest, goal);
      } else {
        r := PushEscapedText(text, out);
        Assoc(out, EscapeText(text), rest);
      }
    case Comment(contents) =>
      r := Push(out, "<!--", CommentBody(contents, 2) + ("-->" + rest), goal);
      ghost var before := r;
      r := PushCommentContents(contents, r);
      Assoc(before, CommentBody(contents, 2), "-->" + rest);
      r := Push(r, "-->", rest, goal);
    case Element(tag, attributes, children) =>
      r := SerializeElement(node, scripting, out, rest, goal);
    case ProcessingInstruction(target, contents) =>
      r := Push(out, "<?", target + (" " + (contents + (">" + rest))), goal);
      r := Push(r, target, " " + (contents + (">" + rest)), goal);
      r := Push(r, " ", contents + (">" + rest), goal);
      r := Push(r, contents, ">" + rest, goal);
      r := Push(r, ">", rest, goal);
  }

  method SerializeElement(node: Node, scripting: Scripting, out: string, ghost rest: string, ghost goal: string)
    returns (r: string)
    requires node.Element? && out + Serialize(node, scripting, None, rest) == goal
    ensures r + rest == goal
    decreases node, 0
  {
    var tag := node.tag;
    ghost var close := CloseTag(tag, rest);
    ghost var inside := if IsVoid(tag) then rest
                        else if IsRawText(tag, scripting) then SerializeRawAll(node.children, scripting, close)
                        else SerializeAll(node.children, scripting, Some(tag), close);
    r := Push(out, "<", tag + Attributes(node.attributes, ">" + inside), goal);
    r := Push(r, tag, Attributes(node.attributes, ">" + inside), goal);
    r := PushAttributes(node.attributes, r, ">" + inside, goal);
    r := Push(r, ">", inside, goal);
    if IsVoid(tag) {
      return;
    }
    if IsRawText(tag, scripting) {
      r := SerializeRawList(node.children, scripting, r, close, goal);
    } else {
      r := SerializeList(node.children, scripting, Some(tag), r, close, goal);
    }
    r := PushCloseTag(tag, r, rest, goal);
  }

  method SerializeList(nodes: seq<Node>, scripting: Scripting, parent: Option<string>, out: string,
                       ghost rest: string, ghost goal: string) returns (r: string)
    requires out + SerializeAll(nodes, scripting, parent, rest) == goal
    ensures r + rest == goal
    decreases nodes, 2
  {
    r := out;
    for i := 0 to |nodes|
      invariant r + SerializeAll(nodes[i..], scripting, parent, rest) == goal
    {
      assert nodes[i..][1..] == nodes[i + 1..];
      r := SerializeNodeInner(
        nodes[i], scripting, parent, r, SerializeAll(nodes[i + 1..], scripting, parent, rest), goal);
    }
  }

  method SerializeRawList(nodes: seq<Node>, scripting: Scripting, out: string, ghost rest: string, ghost goal: string)
    returns (r: string)
    requires out + SerializeRawAll(nodes, scripting, rest) == goal
    ensures r + rest == goal
    decreases nodes, 2
  {
    r := out;
    for i := 0 to |nodes|
      invariant r + SerializeRawAll(nodes[i..], scripting, rest) == goal
    {
      assert nodes[i..][1..] == nodes[i + 1..];
      ghost var after := SerializeRawAll(nodes[i + 1..], scripting, rest);
      if nodes[i].Text? {
        r := Push(r, nodes[i].text, after, goal);
      } else {
        r := SerializeNodeInner(nodes[i], scripting, None, r, after, goal);
      }
    }
  }

  /** `serialize_children_to_string`. */
  method SerializeChildrenToString(node: Node, scripting: Scripting) returns (s: string)
    ensures s == Inner(node, scripting, "")
  {
    ghost var goal := Inner(node, scripting, "");
    s := SerializeList(Children(node), scripting, TagOf(node), "", "", goal);
  }

  /** `serialize_to_string` for a node whose parent element, if any, has tag `parent`. */
  method SerializeToString(node: Node, scripting: Scripting, parent: Option<string>) returns (s: string)
    ensures s == Serialize(node, scripting, parent, "")
  {
    ghost var goal := Serialize(node, scripting, parent, "");
    s := SerializeNodeInner(node, scripting, parent, "", "", goal);
  }
}
