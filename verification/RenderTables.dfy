/** The tables and widths of the render projection, read off its output. */
module RenderTables {
  import opened Common
  import opened RenderProjection
  import opened ImageItems

  /** An element alone in a document is rendered unless it is one of eight metadata elements. */
  lemma {:induction false} ElementShown(name: string, attributes: seq<Attribute>)
    ensures Rendered([Element(name, attributes, [])]) ==
            if name in ["head", "title", "base", "meta", "link", "style", "script", "template"] then []
            else [Shown([0], RenderNode(None, 0, 0, ElementKind(1, name)))]
  {
    var nodes := [Element(name, attributes, [])];
    MetadataExact(name);
    var root: Path := [];
    assert root + [0] == [0] && nodes[1..] == [];
    assert Elements([], root + [0], 0) == [];
    NothingShown(root + [0], 0, Some(1), 2, 0);
    NothingShown(root, 1, None, 2, 0);
    NothingShown(root, 1, None, 2, 1);
  }

  lemma MetadataExact(name: string)
    ensures IsRenderMetadata(name) <==>
            name in ["head", "title", "base", "meta", "link", "style", "script", "template"]
  {
  }

  lemma {:induction false} NothingShown(at: Path, i: nat, parent: Option<nat>, next: nat, sibling: nat)
    ensures Project([], at, i, parent, next, sibling) == []
  {
  }

  /** A text inside an element is rendered exactly when it is more than white space, as the element's child. */
  lemma {:induction false} TextShown(text: string)
    ensures var out := Rendered([Element("p", [], [Text(text)])]);
            && |out| == (if AllWhite(text) then 1 else 2)
            && (!AllWhite(text) ==> out[1] == Shown([0, 0], RenderNode(Some(1), 0, 1, TextKind(text))))
  {
    BlankExact(text);
    MetadataExact("p");
    var child := Text(text);
    var nodes := [Element("p", [], [child])];
    var root: Path := [];
    assert nodes[1..] == [] && [child][1..] == [] && root + [0] == [0] && (root + [0]) + [0] == [0, 0];
    assert Elements([child], root + [0], 0) == [] by {
      assert Elements([], root + [0], 1) == [];
    }
    NothingShown(root + [0], 1, Some(1), 2, 1);
    NothingShown(root + [0], 1, Some(1), 2, 0);
    NothingShown(root, 1, None, 2, 1);
    var inner := Project([child], root + [0], 0, Some(1), 2, 0);
    assert inner == if AllWhite(text) then [] else [Shown([0, 0], RenderNode(Some(1), 0, 1, TextKind(text)))];
    var head := [Shown(root + [0], RenderNode(None, 0, 0, ElementKind(1, "p")))];
    assert Project(nodes, root, 0, None, 1, 0) == head + inner + Project(nodes[1..], root, 1, None, 2, 1);
  }

  /** A text outside any element is never rendered, and number 0 names no element. */
  lemma {:induction false} TopLevelText(text: string, document: seq<Dom>)
    ensures Rendered([Text(text)]) == []
    ensures HandleByNodeId(document, 0) == None
  {
    assert [Text(text)][1..] == [];
    NothingShown([], 1, None, 1, 0);
  }

  function AtMost(x: nat, max: nat): nat { if x <= max then x else max }

  /** Beyond 64, 32 and 16 bits numbers stay at their maximum. */
  lemma {:induction false} Saturates(document: seq<Dom>, k: nat)
    requires k < |Rendered(document)|
    ensures var n, exact := Clamped(Rendered(document))[k], Rendered(document)[k].node;
            && n.siblingIndex == AtMost(exact.siblingIndex, 4294967295)
            && n.depth == AtMost(exact.depth, 65535)
            && (exact.parent.Some? ==> n.parent == Some(AtMost(exact.parent.value, 18446744073709551615)))
            && (exact.parent.None? ==> n.parent == None)
            && match exact.kind
               case ElementKind(id, name) => n.kind == ElementKind(AtMost(id, 18446744073709551615), name)
               case TextKind(text) => n.kind == TextKind(text)
  {
    ClampedAt(Rendered(document), k);
  }
}
