/**
 * The editor's document codec (src/components/messages/RichTextEditor.js, lines 107-162).
 * A document is a sequence of block nodes, each holding text leaves with independent
 * bold/italic/underline marks. The codec converts a document to and from plain text
 * (one line per node) and to and from its portable serialized form.
 */
module RichTextEditor {
  import opened Wrappers
  import opened Strings

  /** A text leaf; a stored leaf may lack its `text` field. */
  datatype Leaf = Leaf(text: Option<string>, bold: bool, italic: bool, underline: bool)

  /** A block node with its `type` tag; a stored node may lack its `children` field. */
  datatype Node = Node(kind: string, children: Option<seq<Leaf>>)

  type Doc = seq<Node>

  /**
   * The value `JSON.parse` produces from a well-formed text, as far as the codec and the
   * renderer look at it: an array (whose elements are taken to be node objects) or anything else.
   */
  datatype JsonValue = JArray(items: seq<Node>) | JNonArray

  /**
   * A string field holding serialized content, seen through `JSON.parse`: either the text of a
   * JSON value (`JSON.stringify` of that value) or a string that `JSON.parse` rejects.
   * This makes `JSON.parse`/`JSON.stringify` an abstract pair that round-trips by construction.
   */
  datatype Portable = Json(value: JsonValue) | Malformed(raw: string)

  function PlainLeaf(t: string): Leaf {
    Leaf(Some(t), false, false, false)
  }

  /** `{ type: 'paragraph', children: [{ text: t }] }` */
  function Paragraph(t: string): Node {
    Node("paragraph", Some([PlainLeaf(t)]))
  }

  /** `createEmptySlateValue()`: one paragraph holding one empty leaf, which counts as empty and serializes to ''. */
  function CreateEmptySlateValue(): (d: Doc)
    ensures |d| == 1 && d[0].kind == "paragraph"
    ensures IsSlateEmpty(Some(d)) == Some(true)
    ensures SerializeSlate(d) == ""
  {
    var d := [Paragraph("")];
    assert LeafTexts(d[0].children.value) == [""];
    d
  }

  /** `child.text || ''`: a missing text reads as the empty string. */
  function LeafText(l: Leaf): string {
    l.text.GetOr("")
  }

  function LeafTexts(cs: seq<Leaf>): (r: seq<string>)
    ensures |r| == |cs| && forall i :: 0 <= i < |cs| ==> r[i] == LeafText(cs[i])
  {
    seq(|cs|, i requires 0 <= i < |cs| => LeafText(cs[i]))
  }

  /** `Node.string(n)`: the node's leaf texts concatenated, '' for a node without children. */
  function NodeString(n: Node): (r: string)
    ensures n.children == Some([]) ==> r == ""
  {
    match n.children
    case None => ""
    case Some(cs) => Join(LeafTexts(cs), "")
  }

  function NodeStrings(nodes: Doc): (r: seq<string>)
    ensures |r| == |nodes| && forall i :: 0 <= i < |nodes| ==> r[i] == NodeString(nodes[i])
  {
    seq(|nodes|, i requires 0 <= i < |nodes| => NodeString(nodes[i]))
  }

  /** `serializeSlate(nodes)`: the nodes' strings joined by newlines, so each node without a newline becomes one line. */
  function SerializeSlate(nodes: Doc): (r: string)
    ensures nodes == [] ==> r == ""
    ensures |nodes| > 0 && (forall i :: 0 <= i < |nodes| ==> '\n' !in NodeString(nodes[i])) ==>
              Split(r, '\n') == NodeStrings(nodes)
  {
    if |nodes| > 0 && forall i :: 0 <= i < |nodes| ==> '\n' !in NodeStrings(nodes)[i] then
      SplitJoin(NodeStrings(nodes), '\n');
      Join(NodeStrings(nodes), "\n")
    else Join(NodeStrings(nodes), "\n")
  }

  /**
   * `deserializeSlate(text)`: a missing or blank text gives the empty value; otherwise one
   * single-leaf paragraph per line.
   */
  function DeserializeSlate(text: Option<string>): (d: Doc)
    ensures |d| >= 1
    ensures forall i :: 0 <= i < |d| ==> d[i].kind == "paragraph" && d[i].children.Some? && |d[i].children.value| == 1
    ensures text.None? || IsBlank(text.value) ==> d == CreateEmptySlateValue()
    ensures text.Some? && !IsBlank(text.value) ==> |d| == |Split(text.value, '\n')|
  {
    if text.None? || IsBlank(text.value) then CreateEmptySlateValue()
    else
      var lines := Split(text.value, '\n');
      seq(|lines|, i requires 0 <= i < |lines| => Paragraph(lines[i]))
  }

  /**
   * `isSlateEmpty(nodes)`, where `None` stands for a missing document. The result is `None`
   * when the source raises: it reads `children.length` of a sole node that has no children.
   */
  function IsSlateEmpty(nodes: Option<Doc>): (r: Option<bool>)
    ensures r.None? <==> nodes.Some? && |nodes.value| == 1 && nodes.value[0].children.None?
    ensures r == Some(true) <==>
      || nodes.None? || |nodes.value| == 0
      || (|nodes.value| == 1 && nodes.value[0].children.Some? && |nodes.value[0].children.value| == 1
          && nodes.value[0].children.value[0].text == Some(""))
  {
    if nodes.None? || |nodes.value| == 0 then Some(true)
    else if |nodes.value| == 1 then
      match nodes.value[0].children
      case None => None
      case Some(cs) => if |cs| == 1 then Some(cs[0].text == Some("")) else Some(false)
    else Some(false)
  }

  /**
   * `slateToPlainText(nodes)`: '' for a missing or empty document, else each node's leaf texts, lines joined by
   * newlines; a second copy of `serializeSlate` that agrees with it on every document.
   */
  function SlateToPlainText(nodes: Option<Doc>): (r: string)
    ensures nodes.None? ==> r == ""
    ensures nodes.Some? ==> r == SerializeSlate(nodes.value)
  {
    if nodes.None? || |nodes.value| == 0 then ""
    else
      var d := nodes.value;
      var lines := seq(|d|, i requires 0 <= i < |d| =>
        match d[i].children
        case None => ""
        case Some(cs) => Join(LeafTexts(cs), ""));
      assert lines == NodeStrings(d);
      Join(lines, "\n")
  }

  /** `slateToJSON(nodes)`: `JSON.stringify` of the node array, which `jsonToSlate` reads back for a non-empty document. */
  function SlateToJson(nodes: Doc): (p: Portable)
    ensures |nodes| > 0 ==> JsonToSlate(p) == nodes
  {
    Json(JArray(nodes))
  }

  /** `jsonToSlate(s)`: the parsed array when it is a non-empty array, the empty value otherwise; never raises. */
  function JsonToSlate(s: Portable): (d: Doc)
    ensures |d| >= 1
  {
    match s
    case Json(JArray(items)) => if |items| > 0 then items else CreateEmptySlateValue()
    case _ => CreateEmptySlateValue()
  }

  // ----- Properties -----

  lemma {:induction false} JoinSingletonTexts(t: string)
    ensures NodeString(Paragraph(t)) == t
  {
    assert LeafTexts([PlainLeaf(t)]) == [t];
  }

  /** Plain text with a non-whitespace character survives deserialize-then-serialize unchanged. */
  lemma {:induction false} SerializeDeserialize(t: string)
    requires !IsBlank(t)
    ensures SerializeSlate(DeserializeSlate(Some(t))) == t
  {
    var lines := Split(t, '\n');
    var d := DeserializeSlate(Some(t));
    forall i | 0 <= i < |lines| ensures NodeStrings(d)[i] == lines[i] {
      JoinSingletonTexts(lines[i]);
    }
    assert NodeStrings(d) == lines;
    JoinSplit(t, '\n');
  }

  /** A missing, empty or whitespace-only text deserializes to the empty value. */
  lemma DeserializeBlank(text: Option<string>)
    requires text.None? || AllSpace(text.value)
    ensures DeserializeSlate(text) == CreateEmptySlateValue()
  {
    if text.Some? {
      BlankIffAllSpace(text.value);
    }
  }

  /** The empty value, a missing document and the empty array are all empty. */
  lemma EmptyValuesAreEmpty()
    ensures IsSlateEmpty(Some(CreateEmptySlateValue())) == Some(true)
    ensures IsSlateEmpty(None) == Some(true)
    ensures IsSlateEmpty(Some([])) == Some(true)
  {
  }

  /** A single paragraph whose single leaf has non-empty text is not empty. */
  lemma NonEmptyLeafIsNotEmpty(t: string)
    requires t != ""
    ensures IsSlateEmpty(Some([Paragraph(t)])) == Some(false)
  {
  }

  /** More than one node, or a sole node with several leaves, is never empty, even if every text is ''. */
  lemma StructureDecidesEmptiness(d: Doc)
    requires |d| > 1 || (|d| == 1 && d[0].children.Some? && |d[0].children.value| > 1)
    ensures IsSlateEmpty(Some(d)) == Some(false)
  {
  }

  /** Anything but a non-empty array (unparseable text, a non-array value, `[]`) reads as the empty value. */
  lemma JsonToSlateFallback(s: Portable)
    requires !(s.Json? && s.value.JArray? && |s.value.items| > 0)
    ensures JsonToSlate(s) == CreateEmptySlateValue()
  {
  }
}
