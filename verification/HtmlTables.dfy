/** The serializer's escapes, element tables and literals, read off its output. */
module HtmlTables {
  import opened Common
  import opened Scan
  import opened HtmlSerialize

  // ------------------------------------------------------------ escapes

  /** What each character of a text becomes. */
  lemma TextCharacterExact(c: char)
    ensures TextCharacter(c) ==
            if c == '&' then "&amp;" else if c == '<' then "&lt;" else if c == '>' then "&gt;"
            else if c == '\U{00A0}' then "&nbsp;" else [c]
    ensures '<' !in TextCharacter(c) && '>' !in TextCharacter(c) && '\U{00A0}' !in TextCharacter(c)
  {
  }

  /** Escaped text holds no bare angle bracket or no-break space ... */
  lemma {:induction false} TextEscapes(s: string)
    ensures '<' !in EscapeText(s) && '>' !in EscapeText(s) && '\U{00A0}' !in EscapeText(s)
  {
    if s != [] {
      TextCharacterExact(s[0]);
      TextEscapes(s[1..]);
    }
  }

  /** ... and text without the four characters is unchanged. */
  lemma {:induction false} TextKept(s: string)
    requires '&' !in s && '<' !in s && '>' !in s && '\U{00A0}' !in s
    ensures EscapeText(s) == s
  {
    if s != [] {
      assert s[0] in s && s == [s[0]] + s[1..];
      TextCharacterExact(s[0]);
      TextKept(s[1..]);
    }
  }

  /** What each character of an attribute value becomes. */
  lemma AttributeCharacterExact(c: char)
    ensures AttributeCharacter(c) ==
            if c == '&' then "&amp;" else if c == '"' then "&quot;" else if c == '\U{00A0}' then "&nbsp;" else [c]
    ensures '"' !in AttributeCharacter(c) && '\U{00A0}' !in AttributeCharacter(c)
  {
  }

  /** An escaped attribute value holds no quote or no-break space ... */
  lemma {:induction false} AttributeEscapes(s: string)
    ensures '"' !in EscapeAttribute(s) && '\U{00A0}' !in EscapeAttribute(s)
  {
    if s != [] {
      AttributeCharacterExact(s[0]);
      AttributeEscapes(s[1..]);
    }
  }

  /** ... and a value without the three characters is unchanged. */
  lemma {:induction false} AttributeKept(s: string)
    requires '&' !in s && '"' !in s && '\U{00A0}' !in s
    ensures EscapeAttribute(s) == s
  {
    if s != [] {
      assert s[0] in s && s == [s[0]] + s[1..];
      AttributeCharacterExact(s[0]);
      AttributeKept(s[1..]);
    }
  }

  // ------------------------------------------------------------ elements

  lemma VoidExact(tag: string)
    ensures IsVoid(tag) <==>
            tag in ["area", "base", "br", "col", "embed", "hr", "img", "input", "link", "meta", "param", "source",
                    "track", "wbr"]
  {
  }

  /** An empty element is one tag for the fourteen void elements and a pair of tags for all others. */
  lemma {:induction false} EmptyElement(tag: string, scripting: Scripting, parent: Option<string>)
    ensures Serialize(Element(tag, [], []), scripting, parent, "") ==
            if tag in ["area", "base", "br", "col", "embed", "hr", "img", "input", "link", "meta", "param", "source",
                       "track", "wbr"]
            then "<" + tag + ">" else "<" + tag + "></" + tag + ">"
  {
    VoidExact(tag);
    var close := CloseTag(tag, "");
    assert SerializeRawAll([], scripting, close) == close && SerializeAll([], scripting, Some(tag), close) == close;
    assert close == "</" + tag + ">";
    assert OpenTag(tag, [], close) == "<" + tag + "></" + tag + ">";
    assert OpenTag(tag, [], "") == "<" + tag + ">";
  }

  lemma RawTextExact(tag: string, scripting: Scripting)
    ensures IsRawText(tag, scripting) <==>
            || tag in ["script", "style", "xmp", "iframe", "noembed", "noframes", "plaintext"]
            || (tag == "noscript" && scripting == Enabled)
  {
  }

  /**
   A text child is written verbatim below the raw-text elements, below noscript while scripting
   runs, and escaped elsewhere.
   */
  lemma {:induction false} TextElement(tag: string, text: string, scripting: Scripting, parent: Option<string>)
    requires !IsVoid(tag)
    ensures Serialize(Element(tag, [], [Text(text)]), scripting, parent, "") ==
            "<" + tag + ">"
            + (if tag in ["script", "style", "xmp", "iframe", "noembed", "noframes", "plaintext"]
                  || (tag == "noscript" && scripting == Enabled) then text else EscapeText(text))
            + "</" + tag + ">"
  {
    RawTextExact(tag, scripting);
    var close := CloseTag(tag, "");
    OnlyText(tag, text, scripting, close);
    var written := if IsRawText(tag, scripting) then text else EscapeText(text);
    OpenSpelled(tag, written + close);
    CloseSpelled(tag);
    Assoc("<" + tag + ">", written, close);
    Assoc("<" + tag + ">" + written, "</" + tag, ">");
    Assoc("<" + tag + ">" + written, "</", tag);
  }

  lemma {:induction false} OnlyText(tag: string, text: string, scripting: Scripting, close: string)
    ensures SerializeRawAll([Text(text)], scripting, close) == text + close
    ensures SerializeAll([Text(text)], scripting, Some(tag), close) ==
            (if IsRawText(tag, scripting) then text else EscapeText(text)) + close
  {
    assert [Text(text)][1..] == [];
    assert SerializeRawAll([], scripting, close) == close && SerializeAll([], scripting, Some(tag), close) == close;
  }

  lemma {:induction false} OpenSpelled(tag: string, rest: string)
    ensures OpenTag(tag, [], rest) == "<" + tag + ">" + rest
  {
    assert Attributes([], ">" + rest) == ">" + rest;
    Assoc("<", tag, ">" + rest);
    Assoc("<" + tag, ">", rest);
  }

  lemma {:induction false} CloseSpelled(tag: string)
    ensures CloseTag(tag, "") == "</" + tag + ">"
  {
    assert ">" + "" == ">";
    Assoc("</", tag, ">");
  }

  /** Attributes follow the tag in order, each with its escaped value in double quotes. */
  lemma {:induction false} AttributeSpelled(tag: string, a: Attribute, more: seq<Attribute>, rest: string)
    ensures OpenTag(tag, [], rest) == "<" + tag + ">" + rest
    ensures Attributes([a] + more, rest) ==
            " " + a.name + "=\"" + EscapeAttribute(a.value) + "\"" + Attributes(more, rest)
  {
    assert ([a] + more)[1..] == more;
  }

  /** The other kinds of node. */
  lemma {:induction false} OtherNodes(
      name: string, target: string, contents: string, scripting: Scripting, parent: Option<string>, rest: string)
    ensures Serialize(Doctype(name), scripting, parent, rest) == "<!doctype " + name + ">" + rest
    ensures Serialize(ProcessingInstruction(target, contents), scripting, parent, rest) ==
            "<?" + target + " " + contents + ">" + rest
    ensures Serialize(Comment(contents), scripting, parent, rest) ==
            "<!--" + CommentBody(contents, 2) + "-->" + rest
  {
  }

  /** A document is its children one after the other, with no wrapper. */
  lemma {:induction false} DocumentSpelled(
      first: Node, more: seq<Node>, scripting: Scripting, parent: Option<string>, rest: string)
    ensures Serialize(Document([]), scripting, parent, rest) == rest
    ensures Serialize(Document([first] + more), scripting, parent, rest) ==
            Serialize(first, scripting, None, Serialize(Document(more), scripting, parent, rest))
  {
    assert ([first] + more)[1..] == more;
  }
}
