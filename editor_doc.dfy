/** The editor-side vocabulary shared by the extensions of
    frontend-next/src/lib: attribute values, the HTML attributes an element
    carries, the document as the sequence of its descendant nodes with their
    positions, the selection a command reads, and the transaction a command
    writes to. The editor library itself is not part of this model: a
    transaction's steps are represented by their effect on these values. */
module EditorDoc {
  import opened Wrappers

  /** A node or mark attribute: `null` (or `undefined`) or a string. */
  datatype Value = Null | Str(s: string)

  /** What JavaScript's `if (v)` accepts: a non-empty string. */
  predicate Truthy(v: Value)
  {
    v.Str? && v.s != ""
  }

  /** `v || d`. */
  function Or(v: Value, d: Value): Value
  {
    if Truthy(v) then v else d
  }

  /** A node's `attrs` object. */
  type Attrs = map<string, Value>

  /** `attrs.key`: a missing key reads as `undefined`. */
  function Get(attrs: Attrs, key: string): Value
  {
    if key in attrs then attrs[key] else Null
  }

  /** The attributes of an HTML element, or the attribute object a
      `renderHTML` returns. */
  type Element = map<string, string>

  /** `element.getAttribute(name)`: `null` when the attribute is absent. */
  function GetAttribute(el: Element, name: string): Value
  {
    if name in el then Str(el[name]) else Null
  }

  /** `v ? { [name]: v } : {}` spread over `el`. */
  function WithData(el: Element, name: string, v: Value): Element
  {
    if Truthy(v) then el[name := v.s] else el
  }

  /** One node as `doc.descendants` visits it: its start position, its type's
      name and its attributes. */
  datatype DocNode = DocNode(pos: nat, typeName: string, attrs: Attrs)

  /** `doc.descendants` visits nodes in document order, and no two nodes start
      at the same position. */
  predicate WellFormed(doc: seq<DocNode>)
  {
    forall i, j :: 0 <= i < j < |doc| ==> doc[i].pos < doc[j].pos
  }

  /** `doc.nodeAt(pos)`: the index of the node starting at `pos`. */
  function NodeAt(doc: seq<DocNode>, pos: int): (r: Option<nat>)
    ensures r.Some? ==> r.value < |doc| && doc[r.value].pos == pos
    ensures r.None? ==> forall i :: 0 <= i < |doc| ==> doc[i].pos != pos
    ensures r.Some? ==> forall i :: 0 <= i < r.value ==> doc[i].pos != pos
  {
    if doc == [] then None
    else if doc[0].pos == pos then Some(0)
    else
      var r := NodeAt(doc[1..], pos);
      if r.None? then None else Some(r.value + 1)
  }

  /** In a well-formed document the node found at a node's own position is
      that node. */
  lemma NodeAtOwnPosition(doc: seq<DocNode>, i: nat)
    requires WellFormed(doc) && i < |doc|
    ensures NodeAt(doc, doc[i].pos) == Some(i)
  {
  }

  /** A node next to the cursor (`$from.nodeBefore` / `$from.nodeAfter`). */
  datatype Side = Side(typeName: string, nodeSize: nat)

  /** What a command reads of `state.selection`:
      - `node`: the selected node's type when it is a `NodeSelection`;
      - `anchor`: `selection.$anchor.pos`;
      - `from`: `$from.pos`, with `before` and `after` the nodes beside it;
      - `parent`: the index of `$from.parent` among the document's
        descendants, `None` when it is the document node itself. */
  datatype Selection = Selection(
    node: Option<string>, anchor: int, from: int,
    before: Option<Side>, after: Option<Side>, parent: Option<nat>)

  /** A call a command hands on to `chain()…run()`, whose effect belongs to
      the editor library. */
  datatype ChainCall =
    | InsertContent(typeName: string, attrs: Attrs)
    | UpdateAttributes(typeName: string, key: string, value: Value)
    | SetMark(markName: string, key: string, value: Value)
    | RemoveEmptyTextStyle

  /** What a command returns: its own answer, or the answer of the chain it
      delegates to. */
  datatype Outcome = Returned(ok: bool) | Chained(calls: seq<ChainCall>)

  /** The transaction `tr` a command receives. At the start `doc` and
      `selection` are the state's; `newSelection` is the position of a
      `NodeSelection` set by `tr.setSelection`, and `dispatched` records a call
      of `dispatch(tr)`. */
  class Transaction {
    var doc: seq<DocNode>
    var selection: Selection
    var newSelection: Option<int>
    var dispatched: bool

    constructor (doc: seq<DocNode>, selection: Selection)
      ensures this.doc == doc && this.selection == selection
      ensures newSelection.None? && !dispatched
    {
      this.doc := doc;
      this.selection := selection;
      newSelection := None;
      dispatched := false;
    }

    /** `tr.setNodeMarkup(pos, null, attrs)` on the node with index `i`: the
        node keeps its type and position and takes `attrs`. */
    method SetNodeMarkup(i: nat, attrs: Attrs)
      requires i < |doc|
      modifies this
      ensures doc == old(doc)[i := old(doc)[i].(attrs := attrs)]
      ensures selection == old(selection) && newSelection == old(newSelection)
      ensures dispatched == old(dispatched)
    {
      doc := doc[i := doc[i].(attrs := attrs)];
    }

    /** `tr.setSelection(NodeSelection.create(state.doc, pos))`. */
    method SetNodeSelection(pos: int)
      modifies this
      ensures newSelection == Some(pos)
      ensures doc == old(doc) && selection == old(selection) && dispatched == old(dispatched)
    {
      newSelection := Some(pos);
    }

    /** `dispatch(tr)`. */
    method Dispatch()
      modifies this
      ensures dispatched
      ensures doc == old(doc) && selection == old(selection) && newSelection == old(newSelection)
    {
      dispatched := true;
    }
  }
}
