/** frontend-next/src/lib/lineHeight.ts: the `lineHeight` attribute of
    paragraphs and headings, rendered as an inline `line-height` and read back
    from the element's style, and the commands that set and clear it. */
module LineHeight {
  import opened Wrappers
  import opened EditorDoc
  import InlineStyle

  const ParagraphType: string := "paragraph"
  const HeadingType: string := "heading"
  const Key: string := "lineHeight"
  const Property: string := "line-height"

  /** `renderHTML`: nothing when unset, else an inline `line-height`. */
  function Render(v: Value): Element
  {
    if !Truthy(v) then map[] else map["style" := InlineStyle.Decl(Property, v.s)]
  }

  /** `parseHTML`: `element.style.lineHeight || null`. */
  function Parse(el: Element): Value
  {
    var found := InlineStyle.StyleOf(el, Property);
    if found.Some? && found.value != "" then Str(found.value) else Null
  }

  /** A plain line height comes back as set, and an unset one as `null`. */
  lemma RoundTrip(v: Value)
    requires Truthy(v) ==> InlineStyle.Plain(v.s)
    ensures Truthy(v) ==> Parse(Render(v)) == v
    ensures !Truthy(v) ==> Parse(Render(v)) == Null
  {
    if Truthy(v) {
      InlineStyle.StyleOfSingle(Property, v.s);
    } else {
      InlineStyle.LookupEmpty(Property);
    }
  }

  /** The cursor's parent is a node of the document, or the document itself. */
  predicate ParentInDoc(tr: Transaction)
    reads tr
  {
    tr.selection.parent.Some? ==> tr.selection.parent.value < |tr.doc|
  }

  /** The cursor sits in a paragraph or a heading. */
  predicate InTextBlock(doc: seq<DocNode>, sel: Selection)
  {
    && sel.parent.Some? && sel.parent.value < |doc|
    && (doc[sel.parent.value].typeName == ParagraphType || doc[sel.parent.value].typeName == HeadingType)
  }

  /** The body `setLineHeight` and `unsetLineHeight` share: in a paragraph or
      heading the transaction stores `value` on it and the answer is true,
      with no check of `dispatch`; elsewhere both node types are handed to
      `updateAttributes`. */
  method Store(tr: Transaction, value: Value) returns (o: Outcome)
    requires ParentInDoc(tr)
    modifies tr
    ensures tr.selection == old(tr.selection) && tr.newSelection == old(tr.newSelection)
    ensures tr.dispatched == old(tr.dispatched)
    ensures InTextBlock(old(tr.doc), old(tr.selection)) ==>
              && o == Returned(true)
              && var p := old(tr.selection).parent.value;
                 tr.doc == old(tr.doc)[p := old(tr.doc)[p].(attrs := old(tr.doc)[p].attrs[Key := value])]
    ensures !InTextBlock(old(tr.doc), old(tr.selection)) ==>
              && tr.doc == old(tr.doc)
              && o == Chained([UpdateAttributes(ParagraphType, Key, value), UpdateAttributes(HeadingType, Key, value)])
  {
    var sel := tr.selection;
    if sel.parent.Some? {
      var p := sel.parent.value;
      if tr.doc[p].typeName == ParagraphType || tr.doc[p].typeName == HeadingType {
        tr.SetNodeMarkup(p, tr.doc[p].attrs[Key := value]);
        return Returned(true);
      }
    }
    return Chained([UpdateAttributes(ParagraphType, Key, value), UpdateAttributes(HeadingType, Key, value)]);
  }

  /** `setLineHeight(lineHeight)`: the string is stored as given, even
      when empty. */
  method SetLineHeight(tr: Transaction, lineHeight: string) returns (o: Outcome)
    requires ParentInDoc(tr)
    modifies tr
    ensures tr.selection == old(tr.selection) && tr.newSelection == old(tr.newSelection)
    ensures tr.dispatched == old(tr.dispatched)
    ensures InTextBlock(old(tr.doc), old(tr.selection)) ==>
              && o == Returned(true)
              && var p := old(tr.selection).parent.value;
                 tr.doc == old(tr.doc)[p := old(tr.doc)[p].(attrs := old(tr.doc)[p].attrs[Key := Str(lineHeight)])]
    ensures !InTextBlock(old(tr.doc), old(tr.selection)) ==>
              && tr.doc == old(tr.doc)
              && o == Chained([UpdateAttributes(ParagraphType, Key, Str(lineHeight)),
                               UpdateAttributes(HeadingType, Key, Str(lineHeight))])
  {
    o := Store(tr, Str(lineHeight));
  }

  /** `unsetLineHeight()`: stores `null`. */
  method UnsetLineHeight(tr: Transaction) returns (o: Outcome)
    requires ParentInDoc(tr)
    modifies tr
    ensures tr.selection == old(tr.selection) && tr.newSelection == old(tr.newSelection)
    ensures tr.dispatched == old(tr.dispatched)
    ensures InTextBlock(old(tr.doc), old(tr.selection)) ==>
              && o == Returned(true)
              && var p := old(tr.selection).parent.value;
                 tr.doc == old(tr.doc)[p := old(tr.doc)[p].(attrs := old(tr.doc)[p].attrs[Key := Null])]
    ensures !InTextBlock(old(tr.doc), old(tr.selection)) ==>
              && tr.doc == old(tr.doc)
              && o == Chained([UpdateAttributes(ParagraphType, Key, Null), UpdateAttributes(HeadingType, Key, Null)])
  {
    o := Store(tr, Null);
  }

  /** Setting and then clearing leaves a node without a rendered line
      height, and setting a plain value renders one that reads back. */
  lemma SetThenUnset(attrs: Attrs, lineHeight: string)
    requires lineHeight != "" ==> InlineStyle.Plain(lineHeight)
    ensures Render(Get(attrs[Key := Str(lineHeight)][Key := Null], Key)) == map[]
    ensures lineHeight != "" ==> Parse(Render(Get(attrs[Key := Str(lineHeight)], Key))) == Str(lineHeight)
  {
    RoundTrip(Str(lineHeight));
  }
}
