/**
 The renderer's view of a document. Three walks number elements independently: the
 projection threads a counter through a recursion that skips metadata subtrees, while the
 lookup by node id and the image list count the elements of a plain preorder walk. They
 must agree. A handle is the path of child positions from the document.
 */
module RenderProjection {
  import opened Common

  type Path = seq<nat>

  datatype Attribute = Attribute(name: string, value: string)

  datatype Dom =
    | Element(name: string, attributes: seq<Attribute>, children: seq<Dom>)
    | Text(text: string)
    | Other

  /** An element where a walk meets it. */
  datatype Met = Met(path: Path, name: string, attributes: seq<Attribute>)

  datatype Kind = ElementKind(nodeId: nat, name: string) | TextKind(text: string)

  datatype RenderNode = RenderNode(parent: Option<nat>, siblingIndex: nat, depth: nat, kind: Kind)

  /** A render node with the path of the document node it stands for. */
  datatype Shown = Shown(origin: Path, node: RenderNode)

  /** `DocumentImageItem`. */
  datatype Item = CspMeta(policy: string) | Image(nodeId: nat, src: string)

  const USIZE_MAX: nat := 0xFFFF_FFFF_FFFF_FFFF
  const U32_MAX: nat := 0xFFFF_FFFF
  const U16_MAX: nat := 0xFFFF

  predicate IsRenderMetadata(name: string) {
    name in {"head", "title", "base", "meta", "link", "style", "script", "template"}
  }

  predicate IsWhitespace(c: char) {
    || '\t' <= c <= '\r' || c == ' ' || c == '\U{0085}' || c == '\U{00A0}' || c == '\U{1680}'
    || '\U{2000}' <= c <= '\U{200A}' || c == '\U{2028}' || c == '\U{2029}' || c == '\U{202F}'
    || c == '\U{205F}' || c == '\U{3000}'
  }

  predicate Blank(s: string) { forall i :: 0 <= i < |s| ==> IsWhitespace(s[i]) }

  // ------------------------------------------------------------ document order

  /**
   The node at a path below `nodes`, whose first member is child number `i`, provided it
   is rendered: it and all elements above it are not metadata, and a text is not blank
   and lies inside an element.
   */
  function RenderedAt(nodes: seq<Dom>, i: nat, inElement: bool, path: Path): Option<Dom>
    decreases path
  {
    if path == [] || path[0] < i || path[0] - i >= |nodes| then None
    else
      match nodes[path[0] - i]
      case Element(name, _, children) =>
        if IsRenderMetadata(name) then None
        else if |path| == 1 then Some(nodes[path[0] - i])
        else RenderedAt(children, 0, true, path[1..])
      case Text(text) => if |path| == 1 && inElement && !Blank(text) then Some(nodes[path[0] - i]) else None
      case Other => None
  }

  /** Strict document order of paths. */
  predicate Before(p: Path, q: Path)
    decreases p
  {
    q != [] && (p == [] || p[0] < q[0] || (p[0] == q[0] && Before(p[1..], q[1..])))
  }

  predicate Under(at: Path, i: nat, p: Path) {
    |at| < |p| && p[..|at|] == at && i <= p[|at|]
  }

  lemma {:induction false} UnderBefore(at: Path, i: nat, p: Path, q: Path)
    requires Under(at, i, p) && p[|at|] == i && Under(at, i + 1, q)
    ensures Before(p, q)
    decreases at
  {
    if at != [] {
      assert p[1..][..|at[1..]|] == at[1..] && q[1..][..|at[1..]|] == at[1..];
      UnderBefore(at[1..], i, p[1..], q[1..]);
    }
  }

  lemma {:induction false} AncestorBefore(p: Path, q: Path)
    requires |p| < |q| && q[..|p|] == p
    ensures Before(p, q)
    decreases p
  {
    if p != [] {
      assert q[1..][..|p[1..]|] == p[1..];
      AncestorBefore(p[1..], q[1..]);
    }
  }

  lemma {:induction false} BeforeIrreflexive(p: Path)
    ensures !Before(p, p)
    decreases p
  {
    if p != [] {
      BeforeIrreflexive(p[1..]);
    }
  }

  // ------------------------------------------------------------ preorder walks

  /** The elements a walk meets below `nodes`, in order; `nodes[0]` is child `i` of the node at `at`. */
  function Elements(nodes: seq<Dom>, at: Path, i: nat): seq<Met>
    decreases nodes
  {
    if nodes == [] then []
    else
      (match nodes[0]
       case Element(name, attributes, children) =>
         [Met(at + [i], name, attributes)] + Elements(children, at + [i], 0)
       case _ => [])
      + Elements(nodes[1..], at, i + 1)
  }

  lemma {:induction false} ElementsUnder(nodes: seq<Dom>, at: Path, i: nat)
    ensures forall k :: 0 <= k < |Elements(nodes, at, i)| ==> Under(at, i, Elements(nodes, at, i)[k].path)
    decreases nodes
  {
    if nodes != [] {
      ElementsUnder(nodes[1..], at, i + 1);
      if nodes[0].Element? {
        var below := Elements(nodes[0].children, at + [i], 0);
        ElementsUnder(nodes[0].children, at + [i], 0);
        forall k | 0 <= k < |below|
          ensures Under(at, i, below[k].path)
        {
          Deeper(at, i, below[k].path);
        }
      }
    }
  }

  lemma Deeper(at: Path, i: nat, p: Path)
    requires Under(at + [i], 0, p)
    ensures Under(at, i, p) && p[|at|] == i
  {
    assert p[..|at|] == p[..|at| + 1][..|at|] == (at + [i])[..|at|] == at;
    assert p[|at|] == p[..|at| + 1][|at|];
  }

  predicate InOrder(met: seq<Met>) {
    forall j, k :: 0 <= j < k < |met| ==> Before(met[j].path, met[k].path)
  }

  /** The walk meets elements in strict document order, so no handle has two numbers. */
  lemma {:induction false} ElementsOrdered(nodes: seq<Dom>, at: Path, i: nat)
    ensures InOrder(Elements(nodes, at, i))
    decreases nodes
  {
    if nodes != [] {
      var met, rest := Elements(nodes, at, i), Elements(nodes[1..], at, i + 1);
      ElementsOrdered(nodes[1..], at, i + 1);
      ElementsUnder(nodes[1..], at, i + 1);
      if nodes[0].Element? {
        var here: Path := at + [i];
        var below := Elements(nodes[0].children, here, 0);
        ElementsOrdered(nodes[0].children, here, 0);
        ElementsUnder(nodes[0].children, here, 0);
        var own := [Met(here, nodes[0].name, nodes[0].attributes)] + below;
        assert met == own + rest;
        forall j, k | 0 <= j < k < |met|
          ensures Before(met[j].path, met[k].path)
        {
          if k < |own| && j == 0 {
            AncestorBefore(here, met[k].path);
          } else if j < |own| <= k {
            if j > 0 {
              Deeper(at, i, met[j].path);
            }
            UnderBefore(at, i, met[j].path, met[k].path);
          } else if k < |own| {
            assert met[j] == below[j - 1] && met[k] == below[k - 1];
          } else {
            assert met[j] == rest[j - |own|] && met[k] == rest[k - |own|];
          }
        }
      } else {
        assert met == rest;
      }
    }
  }

  // ------------------------------------------------------------ lookup by node id

  /** `element_handle_by_node_id`: ids count from 1 in document order. */
  function HandleByNodeId(document: seq<Dom>, nodeId: nat): Option<Path> {
    var met := Elements(document, [], 0);
    if 1 <= nodeId <= |met| then Some(met[nodeId - 1].path) else None
  }

  /** The variables captured by the lookup's callback. */
  datatype Cursor = Cursor(current: nat, found: Option<Path>)

  function Visit(c: Cursor, wanted: nat, met: Met): Cursor {
    if c.found.Some? then c
    else Cursor(c.current + 1, if c.current == wanted then Some(met.path) else None)
  }

  function VisitAll(c: Cursor, wanted: nat, met: seq<Met>): Cursor
    decreases |met|
  {
    if met == [] then c else VisitAll(Visit(c, wanted, met[0]), wanted, met[1..])
  }

  lemma {:induction false} VisitAllAppend(c: Cursor, wanted: nat, a: seq<Met>, b: seq<Met>)
    ensures VisitAll(c, wanted, a + b) == VisitAll(VisitAll(c, wanted, a), wanted, b)
    decreases |a|
  {
    if a == [] {
      assert a + b == b;
    } else {
      assert (a + b)[1..] == a[1..] + b;
      VisitAllAppend(Visit(c, wanted, a[0]), wanted, a[1..], b);
    }
  }

  lemma {:induction false} VisitAllFinds(c: Cursor, wanted: nat, met: seq<Met>)
    requires c.found.None? ==> c.current <= wanted
    ensures VisitAll(c, wanted, met).found ==
            if c.found.Some? then c.found
            else if wanted < c.current + |met| then Some(met[wanted - c.current].path)
            else None
    decreases |met|
  {
    if met != [] {
      VisitAllFinds(Visit(c, wanted, met[0]), wanted, met[1..]);
    }
  }

  method WalkFind(nodes: seq<Dom>, at: Path, wanted: nat, start: Cursor) returns (c: Cursor)
    ensures c == VisitAll(start, wanted, Elements(nodes, at, 0))
    decreases nodes
  {
    c := start;
    for i := 0 to |nodes|
      invariant VisitAll(c, wanted, Elements(nodes[i..], at, i)) == VisitAll(start, wanted, Elements(nodes, at, 0))
    {
      assert nodes[i..][1..] == nodes[i + 1..];
      ghost var rest := Elements(nodes[i + 1..], at, i + 1);
      match nodes[i]
      case Element(name, attributes, children) =>
        ghost var here, below := Met(at + [i], name, attributes), Elements(children, at + [i], 0);
        VisitAllAppend(c, wanted, [here] + below, rest);
        VisitAllAppend(c, wanted, [here], below);
        if c.found.None? {
          if c.current == wanted {
            c := c.(found := Some(at + [i]));
          }
          c := c.(current := c.current + 1);
        }
        c := WalkFind(children, at + [i], wanted, c);
      case _ =>
        assert [] + rest == rest;
    }
  }

  method ElementHandleByNodeId(document: seq<Dom>, nodeId: nat) returns (handle: Option<Path>)
    ensures handle == HandleByNodeId(document, nodeId)
  {
    if nodeId == 0 {
      return None;
    }
    var c := WalkFind(document, [], nodeId - 1, Cursor(0, None));
    VisitAllFinds(Cursor(0, None), nodeId - 1, Elements(document, [], 0));
    handle := c.found;
  }

  // ------------------------------------------------------------ image numbering

  /** The value of the first attribute with the name. */
  function FirstValue(attributes: seq<Attribute>, name: string): Option<string> {
    if attributes == [] then None
    else if attributes[0].name == name then Some(attributes[0].value)
    else FirstValue(attributes[1..], name)
  }

  function TrimStart(s: string): string {
    if s != "" && IsWhitespace(s[0]) then TrimStart(s[1..]) else s
  }

  function TrimEnd(s: string): string {
    if s != "" && IsWhitespace(s[|s| - 1]) then TrimEnd(s[..|s| - 1]) else s
  }

  function AsciiLower(c: char): char { if 'A' <= c <= 'Z' then (c as int + 32) as char else c }

  predicate EqIgnoreAsciiCase(a: string, b: string) {
    |a| == |b| && forall i :: 0 <= i < |a| ==> AsciiLower(a[i]) == AsciiLower(b[i])
  }

  /** `csp_meta_policy`. */
  function CspPolicy(attributes: seq<Attribute>): Option<string> {
    if exists i :: 0 <= i < |attributes| && attributes[i].name == "http-equiv"
         && EqIgnoreAsciiCase(TrimEnd(TrimStart(attributes[i].value)), "Content-Security-Policy")
    then FirstValue(attributes, "content")
    else None
  }

  /** The image callback on one element: the counter has already been advanced to `nodeId`. */
  function ItemsOf(nodeId: nat, met: Met): seq<Item> {
    if met.name == "meta" then
      var policy := CspPolicy(met.attributes);
      if policy.Some? then [CspMeta(policy.value)] else []
    else if met.name == "img" then
      var src := FirstValue(met.attributes, "src");
      if src.Some? && !Blank(src.value) then [Image(nodeId, src.value)] else []
    else []
  }

  /** What a walk collects whose callback numbers the elements. */
  function Numbered<T>(visit: (nat, Met) -> seq<T>, met: seq<Met>, counted: nat): seq<T>
    decreases |met|
  {
    if met == [] then [] else visit(counted + 1, met[0]) + Numbered(visit, met[1..], counted + 1)
  }

  lemma {:induction false} NumberedCons<T>(visit: (nat, Met) -> seq<T>, m: Met, rest: seq<Met>, counted: nat)
    ensures Numbered(visit, [m] + rest, counted) == visit(counted + 1, m) + Numbered(visit, rest, counted + 1)
  {
    assert ([m] + rest)[1..] == rest;
  }

  lemma {:induction false} NumberedAppend<T>(visit: (nat, Met) -> seq<T>, a: seq<Met>, b: seq<Met>, counted: nat)
    ensures Numbered(visit, a + b, counted) == Numbered(visit, a, counted) + Numbered(visit, b, counted + |a|)
    decreases |a|
  {
    if a == [] {
      assert a + b == b;
    } else {
      var rest := a[1..];
      assert a + b == [a[0]] + (rest + b);
      NumberedCons(visit, a[0], rest + b, counted);
      NumberedAppend(visit, rest, b, counted + 1);
      Assoc(visit(counted + 1, a[0]), Numbered(visit, rest, counted + 1), Numbered(visit, b, counted + 1 + |rest|));
    }
  }

  lemma {:induction false} NumberedStep<T>(
      visit: (nat, Met) -> seq<T>, before: seq<T>, here: Met, below: seq<Met>, rest: seq<Met>, counted: nat)
    ensures before + Numbered(visit, [here] + below + rest, counted)
         == before + visit(counted + 1, here) + Numbered(visit, below, counted + 1)
            + Numbered(visit, rest, counted + 1 + |below|)
  {
    var own, inside := visit(counted + 1, here), Numbered(visit, below, counted + 1);
    NumberedAppend(visit, [here] + below, rest, counted);
    NumberedCons(visit, here, below, counted);
    Assoc(before, own, inside);
    Assoc(before, own + inside, Numbered(visit, rest, counted + 1 + |below|));
  }

  /** The walk with a callback that advances a captured counter on every element and collects. */
  method WalkNumbered<T>(visit: (nat, Met) -> seq<T>, nodes: seq<Dom>, at: Path, counted: nat, out: seq<T>)
    returns (nodeId: nat, items: seq<T>)
    ensures nodeId == counted + |Elements(nodes, at, 0)|
    ensures items == out + Numbered(visit, Elements(nodes, at, 0), counted)
    decreases nodes
  {
    nodeId, items := counted, out;
    for i := 0 to |nodes|
      invariant nodeId + |Elements(nodes[i..], at, i)| == counted + |Elements(nodes, at, 0)|
      invariant items + Numbered(visit, Elements(nodes[i..], at, i), nodeId)
             == out + Numbered(visit, Elements(nodes, at, 0), counted)
    {
      assert nodes[i..][1..] == nodes[i + 1..];
      ghost var rest := Elements(nodes[i + 1..], at, i + 1);
      match nodes[i]
      case Element(name, attributes, children) =>
        var here := Met(at + [i], name, attributes);
        NumberedStep(visit, items, here, Elements(children, at + [i], 0), rest, nodeId);
        nodeId := nodeId + 1;
        items := items + visit(nodeId, here);
        nodeId, items := WalkNumbered(visit, children, at + [i], nodeId, items);
      case _ =>
        assert [] + rest == rest;
    }
  }

  function Items(met: seq<Met>): seq<Item> { Numbered(ItemsOf, met, 0) }

  method ImageExecutionItems(document: seq<Dom>) returns (items: seq<Item>)
    ensures items == Items(Elements(document, [], 0))
  {
    var _, found := WalkNumbered(ItemsOf, document, [], 0, []);
    items := found;
  }

  lemma {:induction false} NumberedIn<T>(visit: (nat, Met) -> seq<T>, met: seq<Met>, counted: nat, x: T)
    ensures x in Numbered(visit, met, counted) <==>
            exists k :: 0 <= k < |met| && x in visit(counted + k + 1, met[k])
    decreases |met|
  {
    if met != [] {
      var rest := met[1..];
      NumberedIn(visit, rest, counted + 1, x);
      if k :| 0 <= k < |rest| && x in visit(counted + 1 + k + 1, rest[k]) {
        assert x in visit(counted + (k + 1) + 1, met[k + 1]);
      }
      if k :| 0 < k < |met| && x in visit(counted + k + 1, met[k]) {
        assert rest[k - 1] == met[k] && x in visit(counted + 1 + (k - 1) + 1, rest[k - 1]);
      }
    }
  }

  lemma ItemNumber(nodeId: nat, met: Met, image: Item)
    requires image.Image? && image in ItemsOf(nodeId, met)
    ensures image.nodeId == nodeId
  {
  }

  /** An image is listed with exactly the numbers of the `img` elements that have a source. */
  lemma {:induction false} ImagesExact(met: seq<Met>, image: Item)
    requires image.Image?
    ensures image in Items(met) <==>
            1 <= image.nodeId <= |met| && image in ItemsOf(image.nodeId, met[image.nodeId - 1])
  {
    NumberedIn(ItemsOf, met, 0, image);
    if image in Items(met) {
      var k :| 0 <= k < |met| && image in ItemsOf(0 + k + 1, met[k]);
      ItemNumber(k + 1, met[k], image);
    }
    if 1 <= image.nodeId <= |met| && image in ItemsOf(image.nodeId, met[image.nodeId - 1]) {
      var k := image.nodeId - 1;
      assert image in ItemsOf(0 + k + 1, met[k]);
    }
  }

  /** What stands before an element's item is exactly what the elements before it contribute. */
  lemma {:induction false} ItemsInOrder(met: seq<Met>, k: nat)
    requires k < |met|
    ensures Items(met) == Items(met[..k]) + (ItemsOf(k + 1, met[k]) + Numbered(ItemsOf, met[k + 1..], k + 1))
  {
    NumberedSplit(ItemsOf, met, k);
  }

  lemma {:induction false} NumberedSplit<T>(visit: (nat, Met) -> seq<T>, met: seq<Met>, k: nat)
    requires k < |met|
    ensures Numbered(visit, met, 0) ==
            Numbered(visit, met[..k], 0) + (visit(k + 1, met[k]) + Numbered(visit, met[k + 1..], k + 1))
  {
    assert met == met[..k] + met[k..] && met[k..] == [met[k]] + met[k + 1..];
    NumberedAppend(visit, met[..k], met[k..], 0);
    NumberedCons(visit, met[k], met[k + 1..], k);
  }

  // ------------------------------------------------------------ projection

  /**
   The render nodes below `nodes`, numbered without any counter: the element met k-th
   after `next` is number next + k, a depth is the length of the path above the node.
   */
  function Project(nodes: seq<Dom>, at: Path, i: nat, parent: Option<nat>, next: nat, sibling: nat): seq<Shown>
    decreases nodes
  {
    if nodes == [] then []
    else
      match nodes[0]
      case Element(name, _, children) =>
        var here := at + [i];
        var after := next + 1 + |Elements(children, here, 0)|;
        if IsRenderMetadata(name) then Project(nodes[1..], at, i + 1, parent, after, sibling)
        else
          [Shown(here, RenderNode(parent, sibling, |at|, ElementKind(next, name)))]
          + Project(children, here, 0, Some(next), next + 1, 0)
          + Project(nodes[1..], at, i + 1, parent, after, sibling + 1)
      case Text(text) =>
        if parent.Some? && !Blank(text) then
          [Shown(at + [i], RenderNode(parent, sibling, |at|, TextKind(text)))]
          + Project(nodes[1..], at, i + 1, parent, next, sibling + 1)
        else Project(nodes[1..], at, i + 1, parent, next, sibling)
      case Other => Project(nodes[1..], at, i + 1, parent, next, sibling)
  }

  function Rendered(document: seq<Dom>): seq<Shown> {
    Project(document, [], 0, None, 1, 0)
  }

  // ---- the machine integers of the source

  function Clamp(x: nat, max: nat): nat { if x < max then x else max }

  function ClampId(id: Option<nat>): Option<nat> {
    if id.Some? then Some(Clamp(id.value, USIZE_MAX)) else None
  }

  function ClampKind(kind: Kind): Kind {
    if kind.ElementKind? then kind.(nodeId := Clamp(kind.nodeId, USIZE_MAX)) else kind
  }

  function ClampNode(n: RenderNode): RenderNode {
    RenderNode(ClampId(n.parent), Clamp(n.siblingIndex, U32_MAX), Clamp(n.depth, U16_MAX), ClampKind(n.kind))
  }

  function Clamped(shown: seq<Shown>): (nodes: seq<RenderNode>)
    ensures |nodes| == |shown|
  {
    if shown == [] then [] else [ClampNode(shown[0].node)] + Clamped(shown[1..])
  }

  lemma {:induction false} ClampedAt(shown: seq<Shown>, k: nat)
    requires k < |shown|
    ensures Clamped(shown)[k] == ClampNode(shown[k].node)
  {
    if k > 0 {
      ClampedAt(shown[1..], k - 1);
    }
  }

  /** `saturating_add(1)`. */
  function SaturatingNext(x: nat, max: nat): nat
    requires x <= max
  {
    if x == max then max else x + 1
  }

  lemma {:induction false} ClampedAppend(a: seq<Shown>, b: seq<Shown>)
    ensures Clamped(a + b) == Clamped(a) + Clamped(b)
  {
    if a == [] {
      assert a + b == b;
    } else {
      assert (a + b)[1..] == a[1..] + b && (a + b)[0] == a[0];
      ClampedAppend(a[1..], b);
      Assoc([ClampNode(a[0].node)], Clamped(a[1..]), Clamped(b));
    }
  }

  /** What is still to come below `nodes`, as machine integers; nothing under a hidden ancestor. */
  ghost function Pending(
      nodes: seq<Dom>, at: Path, i: nat, parent: Option<nat>, renderable: bool, next: nat, sibling: nat)
    : seq<RenderNode>
  {
    if renderable then Clamped(Project(nodes, at, i, parent, next, sibling)) else []
  }

  /** What one child contributes, and the sibling index after it. */
  ghost function Share(node: Dom, at: Path, i: nat, parent: Option<nat>, renderable: bool, next: nat, sibling: nat)
    : seq<RenderNode>
  {
    match node
    case Element(name, _, children) =>
      var shown := renderable && !IsRenderMetadata(name);
      (if shown then [ClampNode(RenderNode(parent, sibling, |at|, ElementKind(next, name)))] else [])
      + Pending(children, at + [i], 0, Some(next), shown, next + 1, 0)
    case Text(text) =>
      if renderable && parent.Some? && !Blank(text) then
        [ClampNode(RenderNode(parent, sibling, |at|, TextKind(text)))]
      else []
    case Other => []
  }

  ghost function SiblingsAfter(node: Dom, parent: Option<nat>, renderable: bool, sibling: nat): nat {
    match node
    case Element(name, _, _) => if renderable && !IsRenderMetadata(name) then sibling + 1 else sibling
    case Text(text) => if renderable && parent.Some? && !Blank(text) then sibling + 1 else sibling
    case Other => sibling
  }

  ghost function Size(node: Dom, at: Path, i: nat): nat {
    if node.Element? then 1 + |Elements(node.children, at + [i], 0)| else 0
  }

  lemma PendingStep(nodes: seq<Dom>, at: Path, i: nat, parent: Option<nat>, renderable: bool, next: nat, sibling: nat)
    requires nodes != []
    ensures Pending(nodes, at, i, parent, renderable, next, sibling) ==
            Share(nodes[0], at, i, parent, renderable, next, sibling)
            + Pending(nodes[1..], at, i + 1, parent, renderable, next + Size(nodes[0], at, i),
                      SiblingsAfter(nodes[0], parent, renderable, sibling))
  {
    if renderable {
      var rest := Project(nodes[1..], at, i + 1, parent, next + Size(nodes[0], at, i),
                          SiblingsAfter(nodes[0], parent, true, sibling));
      var own := ProjectStep(nodes, at, i, parent, next, sibling);
      ClampedAppend(own, rest);
    }
  }

  lemma ProjectStep(nodes: seq<Dom>, at: Path, i: nat, parent: Option<nat>, next: nat, sibling: nat)
    returns (own: seq<Shown>)
    requires nodes != []
    ensures Clamped(own) == Share(nodes[0], at, i, parent, true, next, sibling)
    ensures Project(nodes, at, i, parent, next, sibling) ==
            own + Project(nodes[1..], at, i + 1, parent, next + Size(nodes[0], at, i),
                          SiblingsAfter(nodes[0], parent, true, sibling))
  {
    own := [];
    match nodes[0]
    case Element(name, _, children) =>
      if !IsRenderMetadata(name) {
        var head := [Shown(at + [i], RenderNode(parent, sibling, |at|, ElementKind(next, name)))];
        var below := Project(children, at + [i], 0, Some(next), next + 1, 0);
        own := head + below;
        ClampedAppend(head, below);
      }
    case Text(text) =>
      if parent.Some? && !Blank(text) {
        own := [Shown(at + [i], RenderNode(parent, sibling, |at|, TextKind(text)))];
      }
    case Other =>
  }

  lemma ElementsStep(nodes: seq<Dom>, at: Path, i: nat)
    requires nodes != []
    ensures |Elements(nodes, at, i)| == Size(nodes[0], at, i) + |Elements(nodes[1..], at, i + 1)|
  {
  }

  /**
   `project_render_children`. The ghost parameters are the path of the parent and the
   numbers that unbounded counters would hold.
   */
  method ProjectRenderChildren(
      children: seq<Dom>, parent: Option<nat>, depth: nat, renderable: bool, nextIn: nat, output: seq<RenderNode>,
      ghost at: Path, ghost trueParent: Option<nat>, ghost trueNext: nat)
    returns (next: nat, out: seq<RenderNode>)
    requires depth <= U16_MAX && nextIn == Clamp(trueNext, USIZE_MAX)
    requires renderable ==> parent == ClampId(trueParent) && depth == Clamp(|at|, U16_MAX)
    ensures next == Clamp(trueNext + |Elements(children, at, 0)|, USIZE_MAX)
    ensures out == output + Pending(children, at, 0, trueParent, renderable, trueNext, 0)
    decreases children, 1
  {
    next, out := nextIn, output;
    var siblingIndex := 0;
    ghost var counted: nat, siblings: nat := trueNext, 0;
    ghost var goal := output + Pending(children, at, 0, trueParent, renderable, trueNext, 0);
    assert children[0..] == children;
    for i := 0 to |children|
      invariant next == Clamp(counted, USIZE_MAX) && siblingIndex == Clamp(siblings, U32_MAX)
      invariant counted + |Elements(children[i..], at, i)| == trueNext + |Elements(children, at, 0)|
      invariant out + Pending(children[i..], at, i, trueParent, renderable, counted, siblings) == goal
    {
      assert children[i..][1..] == children[i + 1..] && children[i..][0] == children[i];
      ElementsStep(children[i..], at, i);
      PendingStep(children[i..], at, i, trueParent, renderable, counted, siblings);
      ghost var before, share := out, Share(children[i], at, i, trueParent, renderable, counted, siblings);
      next, out, siblingIndex := ProjectChild(
        children[i], parent, depth, renderable, next, out, siblingIndex, at, i, trueParent, counted, siblings);
      counted, siblings :=
        counted + Size(children[i], at, i), SiblingsAfter(children[i], trueParent, renderable, siblings);
      Assoc(before, share, Pending(children[i + 1..], at, i + 1, trueParent, renderable, counted, siblings));
    }
  }

  /** The body of its loop. */
  method ProjectChild(
      child: Dom, parent: Option<nat>, depth: nat, renderable: bool,
      nextIn: nat, output: seq<RenderNode>, siblingIn: nat,
      ghost at: Path, ghost i: nat, ghost trueParent: Option<nat>, ghost trueNext: nat, ghost siblings: nat)
    returns (next: nat, out: seq<RenderNode>, siblingIndex: nat)
    requires depth <= U16_MAX && nextIn == Clamp(trueNext, USIZE_MAX) && siblingIn == Clamp(siblings, U32_MAX)
    requires renderable ==> parent == ClampId(trueParent) && depth == Clamp(|at|, U16_MAX)
    ensures next == Clamp(trueNext + Size(child, at, i), USIZE_MAX)
    ensures siblingIndex == Clamp(SiblingsAfter(child, trueParent, renderable, siblings), U32_MAX)
    ensures out == output + Share(child, at, i, trueParent, renderable, trueNext, siblings)
    decreases child
  {
    next, out, siblingIndex := nextIn, output, siblingIn;
    match child
    case Element(name, _, below) =>
      var nodeId := next;
      next := SaturatingNext(next, USIZE_MAX);
      var shown := renderable && !IsRenderMetadata(name);
      if shown {
        out := out + [RenderNode(parent, siblingIndex, depth, ElementKind(nodeId, name))];
        siblingIndex := SaturatingNext(siblingIndex, U32_MAX);
      }
      ghost var here, own := out, out[|output|..];
      next, out := ProjectRenderChildren(
        below, if shown then Some(nodeId) else None, if shown then SaturatingNext(depth, U16_MAX) else depth, shown,
        next, out, at + [i], Some(trueNext), trueNext + 1);
      Assoc(output, own, Pending(below, at + [i], 0, Some(trueNext), shown, trueNext + 1, 0));
    case Text(text) =>
      if renderable && parent.Some? {
        if !Blank(text) {
          out := out + [RenderNode(parent, siblingIndex, depth, TextKind(text))];
          siblingIndex := SaturatingNext(siblingIndex, U32_MAX);
        }
      }
    case Other =>
  }

  method RenderNodes(document: seq<Dom>) returns (nodes: seq<RenderNode>)
    ensures nodes == Clamped(Rendered(document))
  {
    var _, out := ProjectRenderChildren(document, None, 0, true, 1, [], [], None, 1);
    nodes := out;
  }

  // ------------------------------------------------------------ what the projection means

  /** Where a render node lies and, for an element, that its number is its place in the walk. */
  predicate Placed(met: seq<Met>, next: nat, at: Path, i: nat, s: Shown) {
    && Under(at, i, s.origin) && s.node.depth == |s.origin| - 1
    && (s.node.kind.ElementKind? ==>
          && next <= s.node.kind.nodeId < next + |met|
          && met[s.node.kind.nodeId - next].path == s.origin
          && met[s.node.kind.nodeId - next].name == s.node.kind.name)
  }

  lemma {:induction false} ProjectPlaced(
      nodes: seq<Dom>, at: Path, i: nat, parent: Option<nat>, next: nat, sibling: nat, s: Shown)
    requires s in Project(nodes, at, i, parent, next, sibling)
    ensures Placed(Elements(nodes, at, i), next, at, i, s)
    decreases nodes
  {
    match nodes[0]
    case Element(name, attributes, children) =>
      var here: Path := at + [i];
      var below := Elements(children, here, 0);
      var after := next + 1 + |below|;
      var met := Elements(nodes, at, i);
      assert met == [Met(here, name, attributes)] + below + Elements(nodes[1..], at, i + 1);
      var later := if IsRenderMetadata(name) then sibling else sibling + 1;
      if s in Project(nodes[1..], at, i + 1, parent, after, later) {
        ProjectPlaced(nodes[1..], at, i + 1, parent, after, later, s);
        assert s.node.kind.ElementKind? ==>
            met[s.node.kind.nodeId - next] == Elements(nodes[1..], at, i + 1)[s.node.kind.nodeId - after];
      } else if s in Project(children, here, 0, Some(next), next + 1, 0) {
        ProjectPlaced(children, here, 0, Some(next), next + 1, 0, s);
        Deeper(at, i, s.origin);
        assert s.node.kind.ElementKind? ==> met[s.node.kind.nodeId - next] == below[s.node.kind.nodeId - next - 1];
      }
    case Text(text) =>
      var later := if parent.Some? && !Blank(text) then sibling + 1 else sibling;
      if s in Project(nodes[1..], at, i + 1, parent, next, later) {
        ProjectPlaced(nodes[1..], at, i + 1, parent, next, later, s);
        assert Elements(nodes, at, i) == Elements(nodes[1..], at, i + 1);
      }
    case Other =>
      ProjectPlaced(nodes[1..], at, i + 1, parent, next, sibling, s);
      assert Elements(nodes, at, i) == Elements(nodes[1..], at, i + 1);
  }

  /** A render node carries the name or text of the node it stands for. */
  predicate Depicts(kind: Kind, node: Option<Dom>) {
    && node.Some?
    && match node.value
       case Element(name, _, _) => kind.ElementKind? && kind.name == name
       case Text(text) => kind == TextKind(text)
       case Other => false
  }

  lemma {:induction false} ShownDepicts(
      nodes: seq<Dom>, at: Path, i: nat, parent: Option<nat>, next: nat, sibling: nat, s: Shown)
    requires s in Project(nodes, at, i, parent, next, sibling)
    ensures Under(at, i, s.origin) && Depicts(s.node.kind, RenderedAt(nodes, i, parent.Some?, s.origin[|at|..]))
    decreases nodes
  {
    ProjectPlaced(nodes, at, i, parent, next, sibling, s);
    var after := if nodes[0].Element? then next + 1 + |Elements(nodes[0].children, at + [i], 0)| else next;
    var later := SiblingsAfter(nodes[0], parent, true, sibling);
    if s in Project(nodes[1..], at, i + 1, parent, after, later) {
      ShownDepicts(nodes[1..], at, i + 1, parent, after, later, s);
    } else if nodes[0].Element? && s in Project(nodes[0].children, at + [i], 0, Some(next), next + 1, 0) {
      ShownDepicts(nodes[0].children, at + [i], 0, Some(next), next + 1, 0, s);
      Deeper(at, i, s.origin);
      assert s.origin[|at|..][1..] == s.origin[|at + [i]|..];
    }
  }

  lemma {:induction false} RenderedShown(
      nodes: seq<Dom>, at: Path, i: nat, parent: Option<nat>, next: nat, sibling: nat, path: Path)
    returns (s: Shown)
    requires RenderedAt(nodes, i, parent.Some?, path).Some?
    ensures s in Project(nodes, at, i, parent, next, sibling) && s.origin == at + path
    decreases nodes
  {
    var after := if nodes[0].Element? then next + 1 + |Elements(nodes[0].children, at + [i], 0)| else next;
    if path[0] > i {
      s := RenderedShown(nodes[1..], at, i + 1, parent, after, SiblingsAfter(nodes[0], parent, true, sibling), path);
    } else if |path| > 1 {
      s := RenderedShown(nodes[0].children, at + [i], 0, Some(next), next + 1, 0, path[1..]);
      assert at + [i] + path[1..] == at + path;
    } else {
      assert at + [i] == at + path;
      s := Project(nodes, at, i, parent, next, sibling)[0];
    }
  }

  predicate ShownInOrder(out: seq<Shown>) {
    forall j, k :: 0 <= j < k < |out| ==> Before(out[j].origin, out[k].origin)
  }

  lemma {:induction false} ProjectOrdered(
      nodes: seq<Dom>, at: Path, i: nat, parent: Option<nat>, next: nat, sibling: nat)
    ensures ShownInOrder(Project(nodes, at, i, parent, next, sibling))
    decreases nodes
  {
    if nodes != [] {
      var out := Project(nodes, at, i, parent, next, sibling);
      var after := if nodes[0].Element? then next + 1 + |Elements(nodes[0].children, at + [i], 0)| else next;
      var later := SiblingsAfter(nodes[0], parent, true, sibling);
      var rest := Project(nodes[1..], at, i + 1, parent, after, later);
      ProjectOrdered(nodes[1..], at, i + 1, parent, after, later);
      if later == sibling {
        assert out == rest;
      } else {
        var below :=
          if nodes[0].Element? then Project(nodes[0].children, at + [i], 0, Some(next), next + 1, 0) else [];
        if nodes[0].Element? {
          ProjectOrdered(nodes[0].children, at + [i], 0, Some(next), next + 1, 0);
        }
        var own := [out[0]] + below;
        assert out == own + rest;
        forall j, k | 0 <= j < k < |out|
          ensures Before(out[j].origin, out[k].origin)
        {
          if j < |own| {
            if j > 0 {
              assert out[j] == below[j - 1];
              ProjectPlaced(nodes[0].children, at + [i], 0, Some(next), next + 1, 0, out[j]);
              Deeper(at, i, out[j].origin);
            }
            if k < |own| {
              assert out[k] == below[k - 1];
              ProjectPlaced(nodes[0].children, at + [i], 0, Some(next), next + 1, 0, out[k]);
              if j == 0 {
                AncestorBefore(at + [i], out[k].origin);
              }
            } else {
              assert out[k] == rest[k - |own|];
              ProjectPlaced(nodes[1..], at, i + 1, parent, after, later, out[k]);
              UnderBefore(at, i, out[j].origin, out[k].origin);
            }
          } else {
            assert out[j] == rest[j - |own|] && out[k] == rest[k - |own|];
          }
        }
      }
    }
  }

  /**
   The parent of a render node: the given one at the top, below it the earlier render
   node of the element directly above.
   */
  lemma {:induction false} ParentPrecedes(
      nodes: seq<Dom>, at: Path, i: nat, parent: Option<nat>, next: nat, sibling: nat, k: nat)
    returns (j: nat)
    requires k < |Project(nodes, at, i, parent, next, sibling)|
    ensures var out := Project(nodes, at, i, parent, next, sibling);
            if |out[k].origin| <= |at| + 1 then out[k].node.parent == parent
            else
              && j < k && out[j].node.kind.ElementKind?
              && out[k].node.parent == Some(out[j].node.kind.nodeId)
              && out[j].origin == out[k].origin[..|out[k].origin| - 1]
    decreases nodes
  {
    var out := Project(nodes, at, i, parent, next, sibling);
    var after := if nodes[0].Element? then next + 1 + |Elements(nodes[0].children, at + [i], 0)| else next;
    var later := SiblingsAfter(nodes[0], parent, true, sibling);
    var rest := Project(nodes[1..], at, i + 1, parent, after, later);
    j := 0;
    if later == sibling {
      assert out == rest;
      j := ParentPrecedes(nodes[1..], at, i + 1, parent, after, later, k);
    } else {
      var below :=
        if nodes[0].Element? then Project(nodes[0].children, at + [i], 0, Some(next), next + 1, 0) else [];
      var own := [out[0]] + below;
      assert out == own + rest;
      if k >= |own| {
        assert out[k] == rest[k - |own|];
        j := ParentPrecedes(nodes[1..], at, i + 1, parent, after, later, k - |own|);
        j := j + |own|;
      } else if k > 0 {
        assert out[k] == below[k - 1];
        j := ParentPrecedes(nodes[0].children, at + [i], 0, Some(next), next + 1, 0, k - 1);
        ProjectPlaced(nodes[0].children, at + [i], 0, Some(next), next + 1, 0, out[k]);
        if |out[k].origin| == |at| + 2 {
          j := 0;
        } else {
          j := j + 1;
        }
      }
    }
  }

  /** The render nodes with a given parent, in order. */
  function ChildrenOf(out: seq<Shown>, parent: Option<nat>): seq<Shown>
  {
    if out == [] then []
    else (if out[0].node.parent == parent then [out[0]] else []) + ChildrenOf(out[1..], parent)
  }

  lemma {:induction false} ChildrenOfAppend(a: seq<Shown>, b: seq<Shown>, parent: Option<nat>)
    ensures ChildrenOf(a + b, parent) == ChildrenOf(a, parent) + ChildrenOf(b, parent)
  {
    if a == [] {
      assert a + b == b;
    } else {
      assert (a + b)[1..] == a[1..] + b && (a + b)[0] == a[0];
      ChildrenOfAppend(a[1..], b, parent);
      Assoc(if a[0].node.parent == parent then [a[0]] else [], ChildrenOf(a[1..], parent), ChildrenOf(b, parent));
    }
  }

  lemma {:induction false} NoChildren(out: seq<Shown>, parent: Option<nat>)
    requires forall s :: s in out ==> s.node.parent != parent
    ensures ChildrenOf(out, parent) == []
  {
    if out != [] {
      assert out[0] in out;
      NoChildren(out[1..], parent);
    }
  }

  lemma {:induction false} ParentRange(
      nodes: seq<Dom>, at: Path, i: nat, parent: Option<nat>, next: nat, sibling: nat, s: Shown)
    requires s in Project(nodes, at, i, parent, next, sibling)
    ensures || s.node.parent == parent
            || (s.node.parent.Some? && next <= s.node.parent.value < next + |Elements(nodes, at, i)|)
    decreases nodes
  {
    ElementsStep(nodes, at, i);
    var after := next + Size(nodes[0], at, i);
    var later := SiblingsAfter(nodes[0], parent, true, sibling);
    if s in Project(nodes[1..], at, i + 1, parent, after, later) {
      ParentRange(nodes[1..], at, i + 1, parent, after, later, s);
    } else if nodes[0].Element? && s in Project(nodes[0].children, at + [i], 0, Some(next), next + 1, 0) {
      ParentRange(nodes[0].children, at + [i], 0, Some(next), next + 1, 0, s);
    }
  }

  predicate Counts(out: seq<Shown>, from: nat) {
    forall k :: 0 <= k < |out| ==> out[k].node.siblingIndex == from + k
  }

  lemma {:induction false} CountsJoin(head: Shown, below: seq<Shown>, rest: seq<Shown>, wanted: Option<nat>)
    requires wanted == head.node.parent ==>
               ChildrenOf(below, wanted) == [] && Counts(ChildrenOf(rest, wanted), head.node.siblingIndex + 1)
    requires wanted != head.node.parent ==>
               && Counts(ChildrenOf(below, wanted), 0) && Counts(ChildrenOf(rest, wanted), 0)
               && (ChildrenOf(below, wanted) == [] || ChildrenOf(rest, wanted) == [])
    ensures Counts(ChildrenOf([head] + below + rest, wanted),
                   if wanted == head.node.parent then head.node.siblingIndex else 0)
  {
    ChildrenOfAppend([head] + below, rest, wanted);
    ChildrenOfAppend([head], below, wanted);
    assert ChildrenOf([head], wanted) == if wanted == head.node.parent then [head] else [];
  }

  /** Each parent's children are numbered one by one. */
  lemma {:induction false} SiblingsCount(
      nodes: seq<Dom>, at: Path, i: nat, parent: Option<nat>, next: nat, sibling: nat, wanted: Option<nat>)
    requires parent.Some? ==> parent.value < next
    ensures Counts(ChildrenOf(Project(nodes, at, i, parent, next, sibling), wanted),
                   if wanted == parent then sibling else 0)
    decreases nodes
  {
    if nodes != [] {
      var out := Project(nodes, at, i, parent, next, sibling);
      var after := next + Size(nodes[0], at, i);
      var later := SiblingsAfter(nodes[0], parent, true, sibling);
      var rest := Project(nodes[1..], at, i + 1, parent, after, later);
      SiblingsCount(nodes[1..], at, i + 1, parent, after, later, wanted);
      if later == sibling {
        assert out == rest;
      } else {
        var below :=
          if nodes[0].Element? then Project(nodes[0].children, at + [i], 0, Some(next), next + 1, 0) else [];
        assert out == [out[0]] + below + rest;
        if nodes[0].Element? {
          SiblingsCount(nodes[0].children, at + [i], 0, Some(next), next + 1, 0, wanted);
          BelowOrBeside(nodes[0].children, at + [i], next, wanted, parent);
          Beside(nodes[1..], at, i + 1, parent, next, after, later, wanted);
        }
        CountsJoin(out[0], below, rest, wanted);
      }
    }
  }

  lemma {:induction false} Beside(
      nodes: seq<Dom>, at: Path, i: nat, parent: Option<nat>, from: nat, next: nat, sibling: nat, wanted: Option<nat>)
    ensures wanted != parent && wanted.Some? && from <= wanted.value < next ==>
              ChildrenOf(Project(nodes, at, i, parent, next, sibling), wanted) == []
  {
    var rest := Project(nodes, at, i, parent, next, sibling);
    if wanted != parent && wanted.Some? && from <= wanted.value < next {
      forall s | s in rest
        ensures s.node.parent != wanted
      {
        ParentRange(nodes, at, i, parent, next, sibling, s);
      }
      NoChildren(rest, wanted);
    }
  }

  lemma {:induction false} BelowOrBeside(
      children: seq<Dom>, here: Path, next: nat, wanted: Option<nat>, parent: Option<nat>)
    requires parent.Some? ==> parent.value < next
    ensures wanted == parent || wanted.None? || !(next <= wanted.value < next + 1 + |Elements(children, here, 0)|) ==>
              ChildrenOf(Project(children, here, 0, Some(next), next + 1, 0), wanted) == []
  {
    var below := Project(children, here, 0, Some(next), next + 1, 0);
    if wanted == parent || wanted.None? || !(next <= wanted.value < next + 1 + |Elements(children, here, 0)|) {
      forall s | s in below
        ensures s.node.parent != wanted
      {
        ParentRange(children, here, 0, Some(next), next + 1, 0, s);
      }
      NoChildren(below, wanted);
    }
  }

  // ------------------------------------------------------------ whole documents

  /** The number the source gives a rendered element finds that element exactly when the true number fits. */
  lemma NodeIdResolves(document: seq<Dom>, k: nat)
    requires k < |Rendered(document)| && Rendered(document)[k].node.kind.ElementKind?
    ensures Clamped(Rendered(document))[k].kind.ElementKind?
    ensures var s := Rendered(document)[k];
            HandleByNodeId(document, Clamped(Rendered(document))[k].kind.nodeId) == Some(s.origin) <==>
            s.node.kind.nodeId <= USIZE_MAX
  {
    var met, s := Elements(document, [], 0), Rendered(document)[k];
    ProjectPlaced(document, [], 0, None, 1, 0, s);
    ClampedAt(Rendered(document), k);
    ElementsOrdered(document, [], 0);
    if s.node.kind.nodeId > USIZE_MAX {
      assert Before(met[USIZE_MAX - 1].path, met[s.node.kind.nodeId - 1].path);
      BeforeIrreflexive(s.origin);
    }
  }

  /** An image's number finds its element, and is the number of the render node standing for that element. */
  lemma {:induction false} ImageNumberAgrees(document: seq<Dom>, image: Item, k: nat)
    requires image.Image? && image in Items(Elements(document, [], 0))
    requires k < |Rendered(document)| && Rendered(document)[k].node.kind.ElementKind?
    ensures HandleByNodeId(document, image.nodeId).Some?
    ensures Rendered(document)[k].node.kind.nodeId == image.nodeId <==>
            Some(Rendered(document)[k].origin) == HandleByNodeId(document, image.nodeId)
  {
    var met, s := Elements(document, [], 0), Rendered(document)[k];
    ImagesExact(met, image);
    ProjectPlaced(document, [], 0, None, 1, 0, s);
    ElementsOrdered(document, [], 0);
    var a, b := s.node.kind.nodeId - 1, image.nodeId - 1;
    if a != b {
      assert Before(met[a].path, met[b].path) || Before(met[b].path, met[a].path);
      BeforeIrreflexive(s.origin);
    }
  }

  /**
   What is rendered, as a set and an order: each render node stands for a visible node
   and carries its content, each visible node has exactly one, in document order.
   */
  lemma {:induction false} RenderedExact(document: seq<Dom>)
    ensures forall path: Path :: RenderedAt(document, 0, false, path).Some? <==>
              exists k :: 0 <= k < |Rendered(document)| && Rendered(document)[k].origin == path
    ensures forall k :: 0 <= k < |Rendered(document)| ==>
              Depicts(Rendered(document)[k].node.kind, RenderedAt(document, 0, false, Rendered(document)[k].origin))
    ensures ShownInOrder(Rendered(document))
  {
    var out := Rendered(document);
    ProjectOrdered(document, [], 0, None, 1, 0);
    forall k | 0 <= k < |out|
      ensures Depicts(out[k].node.kind, RenderedAt(document, 0, false, out[k].origin))
    {
      ShownDepicts(document, [], 0, None, 1, 0, out[k]);
      assert out[k].origin[0..] == out[k].origin;
    }
    forall path: Path | RenderedAt(document, 0, false, path).Some?
      ensures exists k :: 0 <= k < |out| && out[k].origin == path
    {
      var s := RenderedShown(document, [], 0, None, 1, 0, path);
      assert [] + path == path;
    }
  }

  /** Parents come first, depth grows by one from parent to child, and siblings count from 0. */
  lemma {:induction false} TreeShape(document: seq<Dom>, k: nat, parent: Option<nat>)
    requires k < |Rendered(document)|
    ensures var out := Rendered(document);
            && (out[k].node.parent.None? ==> out[k].node.depth == 0)
            && (out[k].node.parent.Some? ==>
                  exists j :: 0 <= j < k && out[j].node.kind.ElementKind?
                    && out[k].node.parent == Some(out[j].node.kind.nodeId)
                    && out[k].node.depth == out[j].node.depth + 1
                    && |out[k].origin| > 0 && out[j].origin == out[k].origin[..|out[k].origin| - 1])
            && Counts(ChildrenOf(out, parent), 0)
  {
    var out := Rendered(document);
    ProjectPlaced(document, [], 0, None, 1, 0, out[k]);
    var j := ParentPrecedes(document, [], 0, None, 1, 0, k);
    if out[k].node.parent.Some? {
      ProjectPlaced(document, [], 0, None, 1, 0, out[j]);
    }
    SiblingsCount(document, [], 0, None, 1, 0, parent);
  }

  /** Within the integer widths of the source, its output is the unbounded projection. */
  lemma {:induction false} InBounds(document: seq<Dom>)
    requires |Elements(document, [], 0)| <= USIZE_MAX
    requires forall k :: 0 <= k < |Rendered(document)| ==>
               Rendered(document)[k].node.depth <= U16_MAX && Rendered(document)[k].node.siblingIndex <= U32_MAX
    ensures forall k :: 0 <= k < |Rendered(document)| ==> Clamped(Rendered(document))[k] == Rendered(document)[k].node
  {
    var out := Rendered(document);
    forall k | 0 <= k < |out|
      ensures Clamped(out)[k] == out[k].node
    {
      ClampedAt(out, k);
      ProjectPlaced(document, [], 0, None, 1, 0, out[k]);
      ParentRange(document, [], 0, None, 1, 0, out[k]);
    }
  }
}
