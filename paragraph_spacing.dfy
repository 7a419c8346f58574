/** frontend-next/src/lib/paragraphSpacing.ts: three spacing attributes of a
    paragraph (`spacing`, kept for older documents, `spacingBefore` and
    `spacingAfter`), how each is rendered to and parsed from the paragraph's
    HTML, and the three commands that set them. */
module ParagraphSpacing {
  import opened Wrappers
  import opened EditorDoc
  import InlineStyle

  const ParagraphType: string := "paragraph"

  const SpacingKey: string := "spacing"
  const BeforeKey: string := "spacingBefore"
  const AfterKey: string := "spacingAfter"

  const SpacingData: string := "data-spacing"
  const BeforeData: string := "data-spacing-before"
  const AfterData: string := "data-spacing-after"

  const MarginBottom: string := "margin-bottom"
  const MarginTop: string := "margin-top"

  /** The three attributes of one paragraph. */
  datatype Spacing = Spacing(spacing: Value, spacingBefore: Value, spacingAfter: Value)

  function SpacingOf(attrs: Attrs): Spacing
  {
    Spacing(Get(attrs, SpacingKey), Get(attrs, BeforeKey), Get(attrs, AfterKey))
  }

  /** What the `spacing` renderer returns: nothing when it is unset, only the
      data attribute when `spacingAfter` is set (that one then owns the bottom
      margin), otherwise the data attribute and the bottom margin. */
  function RenderSpacing(a: Spacing): Element
  {
    if !Truthy(a.spacing) || Truthy(a.spacingAfter) then
      (if Truthy(a.spacing) then map[SpacingData := a.spacing.s] else map[])
    else
      map[SpacingData := a.spacing.s, "style" := InlineStyle.Decl(MarginBottom, a.spacing.s)]
  }

  /** What the `spacingBefore` renderer returns: its data attribute and a top
      margin, or nothing. A one-element join is its element. */
  function RenderBefore(a: Spacing): Element
  {
    if !Truthy(a.spacingBefore) then map[]
    else map[BeforeData := a.spacingBefore.s, "style" := InlineStyle.Decl(MarginTop, a.spacingBefore.s)]
  }

  /** What the `spacingAfter` renderer returns: its data attribute and a
      bottom margin, or nothing. */
  function RenderAfter(a: Spacing): Element
  {
    if !Truthy(a.spacingAfter) then map[]
    else map[AfterData := a.spacingAfter.s, "style" := InlineStyle.Decl(MarginBottom, a.spacingAfter.s)]
  }

  /** The data attributes of the rendered paragraph: what the three renderers
      return apart from their `style`. */
  function DataAttributes(a: Spacing): Element
  {
    (RenderSpacing(a) - {"style"}) + (RenderBefore(a) - {"style"}) + (RenderAfter(a) - {"style"})
  }

  /** The three parsers: `element.getAttribute(name) || null`. */
  function ParseSpacing(el: Element): Spacing
  {
    Spacing(Or(GetAttribute(el, SpacingData), Null),
            Or(GetAttribute(el, BeforeData), Null),
            Or(GetAttribute(el, AfterData), Null))
  }

  /** An attribute as it survives rendering: an empty string is dropped. */
  function Kept(v: Value): (r: Value)
    ensures Truthy(v) ==> r == v
    ensures !Truthy(v) ==> r == Null
  {
    if Truthy(v) then v else Null
  }

  function Normalised(a: Spacing): Spacing
  {
    Spacing(Kept(a.spacing), Kept(a.spacingBefore), Kept(a.spacingAfter))
  }

  /** Each attribute is parsed back from the rendered paragraph as it was
      set, an empty string coming back as `null`. */
  lemma RoundTrip(a: Spacing)
    ensures ParseSpacing(DataAttributes(a)) == Normalised(a)
  {
    var el := DataAttributes(a);
    assert GetAttribute(el, SpacingData) == Kept(a.spacing);
    assert GetAttribute(el, BeforeData) == Kept(a.spacingBefore);
    assert GetAttribute(el, AfterData) == Kept(a.spacingAfter);
  }

  /** Normalising is what parsing a rendering does, so a second render and
      parse changes nothing. */
  lemma RoundTripStable(a: Spacing)
    ensures ParseSpacing(DataAttributes(ParseSpacing(DataAttributes(a)))) == ParseSpacing(DataAttributes(a))
  {
    RoundTrip(a);
    RoundTrip(Normalised(a));
  }

  /** At most one renderer declares a bottom margin: `spacingAfter` when it is
      set, otherwise `spacing`; the top margin comes from `spacingBefore`
      alone. */
  lemma Margins(a: Spacing)
    ensures !("style" in RenderSpacing(a) && "style" in RenderAfter(a))
    ensures Truthy(a.spacingAfter) ==>
              RenderAfter(a)["style"] == InlineStyle.Decl(MarginBottom, a.spacingAfter.s)
    ensures !Truthy(a.spacingAfter) && Truthy(a.spacing) ==>
              RenderSpacing(a)["style"] == InlineStyle.Decl(MarginBottom, a.spacing.s)
    ensures !Truthy(a.spacingAfter) && !Truthy(a.spacing) ==>
              "style" !in RenderSpacing(a) && "style" !in RenderAfter(a)
    ensures "style" in RenderBefore(a) <==> Truthy(a.spacingBefore)
  {
  }

  /** A plain margin value is what the paragraph's bottom margin reads as. */
  lemma BottomMarginReads(a: Spacing)
    requires Truthy(a.spacingAfter) ==> InlineStyle.Plain(a.spacingAfter.s)
    requires !Truthy(a.spacingAfter) && Truthy(a.spacing) ==> InlineStyle.Plain(a.spacing.s)
    ensures Truthy(a.spacingAfter) ==>
              InlineStyle.Lookup(RenderAfter(a)["style"], MarginBottom) == Some(a.spacingAfter.s)
    ensures !Truthy(a.spacingAfter) && Truthy(a.spacing) ==>
              InlineStyle.Lookup(RenderSpacing(a)["style"], MarginBottom) == Some(a.spacing.s)
  {
    MarginNamesPlain();
    if Truthy(a.spacingAfter) {
      InlineStyle.LookupSingle(MarginBottom, a.spacingAfter.s, MarginBottom);
    } else if Truthy(a.spacing) {
      InlineStyle.LookupSingle(MarginBottom, a.spacing.s, MarginBottom);
    }
  }

  lemma MarginNamesPlain()
    ensures InlineStyle.Plain(MarginBottom) && InlineStyle.Plain(MarginTop)
  {
  }

  /** The cursor's parent is a node of the document, or the document itself. */
  predicate ParentInDoc(tr: Transaction)
    reads tr
  {
    tr.selection.parent.Some? ==> tr.selection.parent.value < |tr.doc|
  }

  /** The cursor sits in a paragraph. */
  predicate InParagraph(doc: seq<DocNode>, sel: Selection)
  {
    sel.parent.Some? && sel.parent.value < |doc| && doc[sel.parent.value].typeName == ParagraphType
  }

  /** The body the three commands share: in a paragraph, set `key` on it (and
      dispatch when asked) and answer true; elsewhere hand an
      `updateAttributes` of paragraphs to the chain. */
  method SetSpacingAttribute(tr: Transaction, key: string, value: Value, dispatch: bool) returns (o: Outcome)
    requires ParentInDoc(tr)
    modifies tr
    ensures tr.selection == old(tr.selection) && tr.newSelection == old(tr.newSelection)
    ensures InParagraph(old(tr.doc), old(tr.selection)) ==> o == Returned(true)
    ensures InParagraph(old(tr.doc), old(tr.selection)) && dispatch ==>
              && tr.dispatched
              && var p := old(tr.selection).parent.value;
                 tr.doc == old(tr.doc)[p := old(tr.doc)[p].(attrs := old(tr.doc)[p].attrs[key := value])]
    ensures !(InParagraph(old(tr.doc), old(tr.selection)) && dispatch) ==>
              tr.doc == old(tr.doc) && tr.dispatched == old(tr.dispatched)
    ensures !InParagraph(old(tr.doc), old(tr.selection)) ==>
              o == Chained([UpdateAttributes(ParagraphType, key, value)])
  {
    var sel := tr.selection;
    if sel.parent.Some? && tr.doc[sel.parent.value].typeName == ParagraphType {
      var p := sel.parent.value;
      if dispatch {
        tr.SetNodeMarkup(p, tr.doc[p].attrs[key := value]);
        tr.Dispatch();
      }
      return Returned(true);
    }
    return Chained([UpdateAttributes(ParagraphType, key, value)]);
  }

  /** `setParagraphSpacing(spacing)`: an empty string clears the attribute. */
  method SetParagraphSpacing(tr: Transaction, spacing: string, dispatch: bool) returns (o: Outcome)
    requires ParentInDoc(tr)
    modifies tr
    ensures tr.selection == old(tr.selection) && tr.newSelection == old(tr.newSelection)
    ensures InParagraph(old(tr.doc), old(tr.selection)) ==> o == Returned(true)
    ensures InParagraph(old(tr.doc), old(tr.selection)) && dispatch ==>
              && tr.dispatched
              && var p := old(tr.selection).parent.value;
                 tr.doc == old(tr.doc)[p := old(tr.doc)[p].(attrs := old(tr.doc)[p].attrs[SpacingKey := Or(Str(spacing), Null)])]
    ensures !(InParagraph(old(tr.doc), old(tr.selection)) && dispatch) ==>
              tr.doc == old(tr.doc) && tr.dispatched == old(tr.dispatched)
    ensures !InParagraph(old(tr.doc), old(tr.selection)) ==>
              o == Chained([UpdateAttributes(ParagraphType, SpacingKey, Or(Str(spacing), Null))])
  {
    o := SetSpacingAttribute(tr, SpacingKey, Or(Str(spacing), Null), dispatch);
  }

  /** `setParagraphSpacingBefore(spacing)`: the value is stored as given. */
  method SetParagraphSpacingBefore(tr: Transaction, spacing: Value, dispatch: bool) returns (o: Outcome)
    requires ParentInDoc(tr)
    modifies tr
    ensures tr.selection == old(tr.selection) && tr.newSelection == old(tr.newSelection)
    ensures InParagraph(old(tr.doc), old(tr.selection)) ==> o == Returned(true)
    ensures InParagraph(old(tr.doc), old(tr.selection)) && dispatch ==>
              && tr.dispatched
              && var p := old(tr.selection).parent.value;
                 tr.doc == old(tr.doc)[p := old(tr.doc)[p].(attrs := old(tr.doc)[p].attrs[BeforeKey := spacing])]
    ensures !(InParagraph(old(tr.doc), old(tr.selection)) && dispatch) ==>
              tr.doc == old(tr.doc) && tr.dispatched == old(tr.dispatched)
    ensures !InParagraph(old(tr.doc), old(tr.selection)) ==>
              o == Chained([UpdateAttributes(ParagraphType, BeforeKey, spacing)])
  {
    o := SetSpacingAttribute(tr, BeforeKey, spacing, dispatch);
  }

  /** `setParagraphSpacingAfter(spacing)`: the value is stored as given. */
  method SetParagraphSpacingAfter(tr: Transaction, spacing: Value, dispatch: bool) returns (o: Outcome)
    requires ParentInDoc(tr)
    modifies tr
    ensures tr.selection == old(tr.selection) && tr.newSelection == old(tr.newSelection)
    ensures InParagraph(old(tr.doc), old(tr.selection)) ==> o == Returned(true)
    ensures InParagraph(old(tr.doc), old(tr.selection)) && dispatch ==>
              && tr.dispatched
              && var p := old(tr.selection).parent.value;
                 tr.doc == old(tr.doc)[p := old(tr.doc)[p].(attrs := old(tr.doc)[p].attrs[AfterKey := spacing])]
    ensures !(InParagraph(old(tr.doc), old(tr.selection)) && dispatch) ==>
              tr.doc == old(tr.doc) && tr.dispatched == old(tr.dispatched)
    ensures !InParagraph(old(tr.doc), old(tr.selection)) ==>
              o == Chained([UpdateAttributes(ParagraphType, AfterKey, spacing)])
  {
    o := SetSpacingAttribute(tr, AfterKey, spacing, dispatch);
  }

  /** Setting one attribute leaves the other two as they were. */
  lemma SetOne(attrs: Attrs, v: Value)
    ensures SpacingOf(attrs[SpacingKey := v]) == SpacingOf(attrs).(spacing := v)
    ensures SpacingOf(attrs[BeforeKey := v]) == SpacingOf(attrs).(spacingBefore := v)
    ensures SpacingOf(attrs[AfterKey := v]) == SpacingOf(attrs).(spacingAfter := v)
  {
  }

  /** After `setParagraphSpacingBefore(v)` with a non-empty `v`, the
      paragraph renders a top margin of `v` and keeps its bottom margin. */
  lemma SetBeforeRenders(attrs: Attrs, v: string)
    requires v != ""
    ensures RenderBefore(SpacingOf(attrs[BeforeKey := Str(v)]))["style"] == InlineStyle.Decl(MarginTop, v)
    ensures RenderSpacing(SpacingOf(attrs[BeforeKey := Str(v)])) == RenderSpacing(SpacingOf(attrs))
    ensures RenderAfter(SpacingOf(attrs[BeforeKey := Str(v)])) == RenderAfter(SpacingOf(attrs))
  {
    SetOne(attrs, Str(v));
  }
}
