/**
 * What `RichTextRenderer` shows for a message's stored content
 * (src/components/messages/RichTextRenderer.js), as a render tree instead of markup.
 */
module RichTextRenderer {
  import opened Wrappers
  import opened RichTextEditor

  /** The inline tree a leaf renders to: plain text wrapped in zero or more mark elements. */
  datatype Inline = Text(s: string) | Strong(inner: Inline) | Em(inner: Inline) | Underline(inner: Inline)

  datatype Mark = BoldMark | ItalicMark | UnderlineMark

  /** A `<p>` holding one `<span>` per leaf. */
  datatype Paragraph = Paragraph(spans: seq<Inline>)

  /**
   * The component's output: the raw content in a single `<span>` (the fallback), or a block
   * per node, where `None` is the `null` an element without children renders.
   */
  datatype View = Verbatim(content: Option<Portable>) | Blocks(blocks: seq<Option<Paragraph>>)

  /** `Leaf`: start from `text || ''`, wrap in strong, then em, then u, each only if its mark is set. */
  function RenderLeaf(l: Leaf): Inline {
    var t := Text(LeafText(l));
    var b := if l.bold then Strong(t) else t;
    var i := if l.italic then Em(b) else b;
    if l.underline then Underline(i) else i
  }

  /** `Element`: nothing for a node without children, otherwise one paragraph whatever its `type`. */
  function RenderElement(n: Node): (r: Option<Paragraph>)
    ensures r.None? <==> n.children.None?
    ensures r.Some? ==> |r.value.spans| == |n.children.value|
  {
    match n.children
    case None => None
    case Some(cs) => Some(Paragraph(seq(|cs|, i requires 0 <= i < |cs| => RenderLeaf(cs[i]))))
  }

  /**
   * `RichTextRenderer({content})`: `content` is the message's `text` field (`None` when absent,
   * which is not a string and not an array). Unparseable text and non-arrays are shown verbatim.
   */
  function Render(content: Option<Portable>): (v: View)
    ensures v.Blocks? <==> content.Some? && content.value.Json? && content.value.value.JArray?
    ensures v.Verbatim? ==> v.content == content
    ensures v.Blocks? ==> |v.blocks| == |content.value.value.items|
  {
    match content
    case Some(Json(JArray(nodes))) => Blocks(seq(|nodes|, i requires 0 <= i < |nodes| => RenderElement(nodes[i])))
    case _ => Verbatim(content)
  }

  /** The marks around a rendered leaf, outermost first, and the text at its core. */
  function Layers(x: Inline): (seq<Mark>, string) {
    match x
    case Text(s) => ([], s)
    case Strong(y) => ([BoldMark] + Layers(y).0, Layers(y).1)
    case Em(y) => ([ItalicMark] + Layers(y).0, Layers(y).1)
    case Underline(y) => ([UnderlineMark] + Layers(y).0, Layers(y).1)
  }

  /** The fixed nesting order: underline outermost, then italic, then bold innermost, each present iff set. */
  function MarkOrder(l: Leaf): seq<Mark> {
    (if l.underline then [UnderlineMark] else [])
    + (if l.italic then [ItalicMark] else [])
    + (if l.bold then [BoldMark] else [])
  }

  // ----- Properties -----

  /** Content that does not parse is shown verbatim. */
  lemma UnparseableIsVerbatim(raw: string)
    ensures Render(Some(Malformed(raw))) == Verbatim(Some(Malformed(raw)))
  {
  }

  /** Content that parses to something other than an array is shown verbatim. */
  lemma NonArrayIsVerbatim()
    ensures Render(Some(Json(JNonArray))) == Verbatim(Some(Json(JNonArray)))
  {
  }

  /** Every node with children becomes exactly one paragraph, every node without children nothing, in order. */
  lemma {:induction false} OneParagraphPerNode(nodes: Doc, i: nat)
    requires i < |nodes|
    ensures Render(Some(SlateToJson(nodes))).blocks[i].Some? <==> nodes[i].children.Some?
    ensures nodes[i].children.Some? ==>
      Render(Some(SlateToJson(nodes))).blocks[i].value.spans
        == seq(|nodes[i].children.value|, k requires 0 <= k < |nodes[i].children.value| => RenderLeaf(nodes[i].children.value[k]))
  {
  }

  /** A leaf without `text` renders the empty string at its core. */
  lemma MissingTextRendersEmpty(l: Leaf)
    requires l.text.None?
    ensures Layers(RenderLeaf(l)).1 == ""
  {
  }

  /** A rendered leaf carries exactly the marks it has set, in the fixed order, around its text. */
  lemma MarksNestInFixedOrder(l: Leaf)
    ensures Layers(RenderLeaf(l)) == (MarkOrder(l), LeafText(l))
  {
    var t := Text(LeafText(l));
    assert Layers(t) == ([], LeafText(l));
    var b := if l.bold then Strong(t) else t;
    var mb: seq<Mark> := if l.bold then [BoldMark] else [];
    assert Layers(b) == (mb, LeafText(l)) by {
      if l.bold { assert Layers(b) == ([BoldMark] + Layers(t).0, Layers(t).1); assert [BoldMark] + [] == [BoldMark]; }
    }
    var i := if l.italic then Em(b) else b;
    var mi: seq<Mark> := (if l.italic then [ItalicMark] else []) + mb;
    assert Layers(i) == (mi, LeafText(l)) by {
      if l.italic { assert Layers(i) == ([ItalicMark] + Layers(b).0, Layers(b).1); } else { assert [] + mb == mb; }
    }
    if l.underline {
      assert RenderLeaf(l) == Underline(i);
      assert MarkOrder(l) == [UnderlineMark] + mi;
    } else {
      assert RenderLeaf(l) == i;
      assert MarkOrder(l) == [] + mi == mi;
    }
  }
}
