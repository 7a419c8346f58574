/** frontend-next/src/lib/horizontalRule.ts: the horizontal-rule node's
    attributes (width, colour, thickness, spacing before and after), how they
    are rendered to and parsed from an `<hr>` element, and the commands that
    insert, select and restyle a rule. */
module HorizontalRule {
  import opened Wrappers
  import opened Strings
  import opened EditorDoc

  const RuleType: string := "horizontalRule"

  const DefaultWidth: string := "100%"
  const DefaultColor: string := "#e5e7eb"
  const DefaultThickness: string := "2px"
  /** The margin used above or below a rule whose spacing is unset. */
  const DefaultSpacing: string := "1.5rem"

  /** `v || d` where the result is used as a string. */
  function Text(v: Value, d: string): (t: string)
    ensures Truthy(v) ==> t == v.s
    ensures !Truthy(v) ==> t == d
  {
    if Truthy(v) then v.s else d
  }

  /** The rule's five attributes; `Null` stands for `null` and for an
      option that was not given. */
  datatype RuleAttrs = RuleAttrs(
    width: Value, color: Value, thickness: Value, spacingBefore: Value, spacingAfter: Value)

  /** The five attributes read by name from a node's `attrs`. */
  function RuleAttrsOf(attrs: Attrs): RuleAttrs
  {
    RuleAttrs(Get(attrs, "width"), Get(attrs, "color"), Get(attrs, "thickness"),
              Get(attrs, "spacingBefore"), Get(attrs, "spacingAfter"))
  }

  /** The same five as an `attrs` object. */
  function AsAttrs(a: RuleAttrs): Attrs
  {
    map["width" := a.width, "color" := a.color, "thickness" := a.thickness,
        "spacingBefore" := a.spacingBefore, "spacingAfter" := a.spacingAfter]
  }

  /** The `data-*` attributes the five attribute renderers contribute: each
      only when its value is truthy. */
  function AttributesHtml(a: RuleAttrs): Element
  {
    var e: Element := map[];
    var e := WithData(e, "data-width", a.width);
    var e := WithData(e, "data-color", a.color);
    var e := WithData(e, "data-thickness", a.thickness);
    var e := WithData(e, "data-spacing-before", a.spacingBefore);
    WithData(e, "data-spacing-after", a.spacingAfter)
  }

  /** The six declarations of the rule's `style`, joined by "; ". */
  function RuleStyle(thickness: string, color: string, width: string, marginTop: string, marginBottom: string): string
  {
    Join(Declarations(thickness, color, width, marginTop, marginBottom), "; ")
  }

  function Declarations(thickness: string, color: string, width: string, marginTop: string, marginBottom: string): seq<string>
  {
    ["border: none", "border-top: " + thickness + " solid " + color, "width: " + width,
     "margin-top: " + marginTop, "margin-bottom: " + marginBottom, "display: block"]
  }

  /** The object `renderHTML` returns, given the attribute renderers' output,
      the style and the attribute values with their defaults. */
  function Assemble(html: Element, style: string, color: string, thickness: string, width: string,
                    before: Value, after: Value): Element
  {
    var el := html["style" := style]["data-color" := color]["data-thickness" := thickness]["data-width" := width];
    WithData(WithData(el, "data-spacing-before", before), "data-spacing-after", after)
  }

  /** The node's `renderHTML`: the attribute renderers' output, then the style
      and the `data-*` attributes with the defaults filled in; the spacing
      attributes only when set. */
  function RenderRule(a: RuleAttrs): Element
  {
    var color := Text(a.color, DefaultColor);
    var thickness := Text(a.thickness, DefaultThickness);
    var width := Text(a.width, DefaultWidth);
    var before := Or(a.spacingBefore, Null);
    var after := Or(a.spacingAfter, Null);
    Assemble(AttributesHtml(a), RuleStyle(thickness, color, width, Text(before, DefaultSpacing), Text(after, DefaultSpacing)),
             color, thickness, width, before, after)
  }

  /** The attributes' `parseHTML`: each `data-*` attribute or its default. */
  function ParseRule(el: Element): RuleAttrs
  {
    RuleAttrs(Or(GetAttribute(el, "data-width"), Str(DefaultWidth)),
              Or(GetAttribute(el, "data-color"), Str(DefaultColor)),
              Or(GetAttribute(el, "data-thickness"), Str(DefaultThickness)),
              Or(GetAttribute(el, "data-spacing-before"), Null),
              Or(GetAttribute(el, "data-spacing-after"), Null))
  }

  /** The five attributes with empty or missing values replaced by their
      defaults (`null` for the spacings): the attributes `setHorizontalRule`
      inserts for its options. */
  function WithDefaults(a: RuleAttrs): RuleAttrs
  {
    RuleAttrs(Or(a.width, Str(DefaultWidth)), Or(a.color, Str(DefaultColor)),
              Or(a.thickness, Str(DefaultThickness)), Or(a.spacingBefore, Null), Or(a.spacingAfter, Null))
  }

  /** What the assembled object holds: the style and the three always-present
      attributes, and each spacing attribute exactly when the renderers or the
      value supply one. */
  lemma AssembleHolds(html: Element, style: string, color: string, thickness: string, width: string,
                      before: Value, after: Value)
    ensures var el := Assemble(html, style, color, thickness, width, before, after);
      && "style" in el && el["style"] == style
      && "data-color" in el && el["data-color"] == color
      && "data-thickness" in el && el["data-thickness"] == thickness
      && "data-width" in el && el["data-width"] == width
      && ("data-spacing-before" in el <==> "data-spacing-before" in html || Truthy(before))
      && ("data-spacing-after" in el <==> "data-spacing-after" in html || Truthy(after))
      && (Truthy(before) ==> el["data-spacing-before"] == before.s)
      && (Truthy(after) ==> el["data-spacing-after"] == after.s)
  {
  }

  /** The renderers emit a spacing attribute exactly when it is set. */
  lemma AttributesHtmlSpacing(a: RuleAttrs)
    ensures var html := AttributesHtml(a);
      && ("data-spacing-before" in html <==> Truthy(a.spacingBefore))
      && ("data-spacing-after" in html <==> Truthy(a.spacingAfter))
  {
  }

  /** What `renderHTML` puts on the `<hr>`: the colour, thickness and width
      always, with their defaults; the spacings only when set; a style whose
      margins are 1.5rem where the spacings are unset. */
  lemma RenderDefaults(a: RuleAttrs)
    ensures var el := RenderRule(a);
      && "data-color" in el && el["data-color"] == Text(a.color, DefaultColor)
      && "data-thickness" in el && el["data-thickness"] == Text(a.thickness, DefaultThickness)
      && "data-width" in el && el["data-width"] == Text(a.width, DefaultWidth)
      && ("data-spacing-before" in el <==> Truthy(a.spacingBefore))
      && ("data-spacing-after" in el <==> Truthy(a.spacingAfter))
      && "style" in el
      && el["style"] == RuleStyle(el["data-thickness"], el["data-color"], el["data-width"],
                                  Text(a.spacingBefore, DefaultSpacing), Text(a.spacingAfter, DefaultSpacing))
  {
    var color := Text(a.color, DefaultColor);
    var thickness := Text(a.thickness, DefaultThickness);
    var width := Text(a.width, DefaultWidth);
    var before := Or(a.spacingBefore, Null);
    var after := Or(a.spacingAfter, Null);
    AssembleHolds(AttributesHtml(a), RuleStyle(thickness, color, width, Text(before, DefaultSpacing), Text(after, DefaultSpacing)),
                  color, thickness, width, before, after);
    AttributesHtmlSpacing(a);
  }

  /** Parsing what was rendered gives back the attributes with their
      defaults. */
  lemma RoundTrip(a: RuleAttrs)
    ensures ParseRule(RenderRule(a)) == WithDefaults(a)
  {
    RenderDefaults(a);
    var el := RenderRule(a);
    assert Truthy(a.spacingBefore) ==> el["data-spacing-before"] == a.spacingBefore.s by {
      var before := Or(a.spacingBefore, Null);
      var after := Or(a.spacingAfter, Null);
      var color := Text(a.color, DefaultColor);
      var thickness := Text(a.thickness, DefaultThickness);
      var width := Text(a.width, DefaultWidth);
      AssembleHolds(AttributesHtml(a), RuleStyle(thickness, color, width, Text(before, DefaultSpacing), Text(after, DefaultSpacing)),
                    color, thickness, width, before, after);
    }
    assert Truthy(a.spacingAfter) ==> el["data-spacing-after"] == a.spacingAfter.s by {
      var before := Or(a.spacingBefore, Null);
      var after := Or(a.spacingAfter, Null);
      var color := Text(a.color, DefaultColor);
      var thickness := Text(a.thickness, DefaultThickness);
      var width := Text(a.width, DefaultWidth);
      AssembleHolds(AttributesHtml(a), RuleStyle(thickness, color, width, Text(before, DefaultSpacing), Text(after, DefaultSpacing)),
                    color, thickness, width, before, after);
    }
  }

  /** A rule inserted by `setHorizontalRule` survives rendering and parsing
      unchanged. */
  lemma InsertedRuleRoundTrips(options: RuleAttrs)
    ensures ParseRule(RenderRule(WithDefaults(options))) == WithDefaults(options)
  {
    RoundTrip(WithDefaults(options));
  }

  /** With no ';' in the values, the style splits on ';' into exactly its six
      declarations, in their order, each after the first behind the space of
      its separator. */
  lemma StyleDeclarations(thickness: string, color: string, width: string, marginTop: string, marginBottom: string)
    requires ';' !in thickness && ';' !in color && ';' !in width
    requires ';' !in marginTop && ';' !in marginBottom
    ensures var ds := Declarations(thickness, color, width, marginTop, marginBottom);
      var parts := Split(RuleStyle(thickness, color, width, marginTop, marginBottom), ';');
      && |parts| == 6 && parts[0] == ds[0]
      && forall k :: 1 <= k < 6 ==> parts[k] == " " + ds[k]
  {
    var ds := Declarations(thickness, color, width, marginTop, marginBottom);
    DeclarationsFree(thickness, color, width, marginTop, marginBottom);
    SplitSpacedJoin(ds);
  }

  /** The parts, each but the first behind a space. */
  function Spaced(ds: seq<string>): seq<string>
    requires |ds| >= 1
  {
    [ds[0]] + seq(|ds| - 1, k requires 0 <= k < |ds| - 1 => " " + ds[k + 1])
  }

  lemma DeclarationsFree(thickness: string, color: string, width: string, marginTop: string, marginBottom: string)
    requires ';' !in thickness && ';' !in color && ';' !in width
    requires ';' !in marginTop && ';' !in marginBottom
    ensures var ds := Declarations(thickness, color, width, marginTop, marginBottom);
      forall k :: 0 <= k < |ds| ==> ';' !in ds[k]
  {
  }

  /** Splitting on ';' what was joined with "; " gives back the parts, each
      but the first behind a space. */
  lemma SplitSpacedJoin(ds: seq<string>)
    requires |ds| >= 1
    requires forall k :: 0 <= k < |ds| ==> ';' !in ds[k]
    ensures Split(Join(ds, "; "), ';') == Spaced(ds)
  {
    var spaced := Spaced(ds);
    SpacedJoin(ds);
    forall k | 0 <= k < |spaced| ensures ';' !in spaced[k] {
      if k > 0 {
        assert spaced[k] == " " + ds[k];
      }
    }
    JoinSplit(spaced, ';');
  }

  /** Joining with "; " is joining with ";" after a space is put in front of
      every part but the first. */
  lemma {:induction false} SpacedJoin(ds: seq<string>)
    requires |ds| >= 1
    ensures Join(ds, "; ") == Join(Spaced(ds), ";")
    decreases |ds|
  {
    var tail := seq(|ds| - 1, k requires 0 <= k < |ds| - 1 => " " + ds[k + 1]);
    if |ds| == 1 {
      assert [ds[0]] + tail == [ds[0]];
    } else {
      var rest := ds[1..];
      SpacedJoin(rest);
      var restTail := seq(|rest| - 1, k requires 0 <= k < |rest| - 1 => " " + rest[k + 1]);
      assert tail == [" " + rest[0]] + restTail;
      JoinCons(ds[0], tail, ";");
      assert Join(tail, ";") == " " + Join([rest[0]] + restTail, ";") by {
        if |rest| > 1 {
          JoinCons(" " + rest[0], restTail, ";");
          JoinCons(rest[0], restTail, ";");
        } else {
          assert tail == [" " + rest[0]];
          assert [rest[0]] + restTail == [rest[0]];
        }
      }
      assert ds == [ds[0]] + rest;
      JoinCons(ds[0], rest, "; ");
    }
  }

  /** `setHorizontalRule(options)`: insert a rule whose attributes are the
      options with the defaults filled in. */
  function SetHorizontalRule(options: RuleAttrs): (o: Outcome)
    ensures o.Chained? && |o.calls| == 1 && o.calls[0].InsertContent?
    ensures o.calls[0].typeName == RuleType
    ensures RuleAttrsOf(o.calls[0].attrs) == WithDefaults(options)
    ensures ParseRule(RenderRule(RuleAttrsOf(o.calls[0].attrs))) == RuleAttrsOf(o.calls[0].attrs)
  {
    InsertedRuleRoundTrips(options);
    Chained([InsertContent(RuleType, AsAttrs(WithDefaults(options)))])
  }

  /* ---- Finding the rule a command acts on ---- */

  predicate IsRule(n: DocNode)
  {
    n.typeName == RuleType
  }

  /** `Math.abs(pos - $from.pos)`. */
  function Distance(n: DocNode, from: int): nat
  {
    if n.pos >= from then n.pos - from else from - n.pos
  }

  /** One of the first `n` nodes is a rule. */
  predicate HasRuleBefore(doc: seq<DocNode>, n: nat)
  {
    exists j :: 0 <= j < n && j < |doc| && IsRule(doc[j])
  }

  predicate HasRule(doc: seq<DocNode>)
  {
    HasRuleBefore(doc, |doc|)
  }

  /** Among the first `n` nodes, the rule at index `k` is closest to `from`,
      and strictly closer than every rule before it. */
  predicate NearestAmong(doc: seq<DocNode>, from: int, k: nat, n: nat)
  {
    && k < n <= |doc| && IsRule(doc[k])
    && (forall j :: 0 <= j < n && IsRule(doc[j]) ==> Distance(doc[k], from) <= Distance(doc[j], from))
    && (forall j :: 0 <= j < k && IsRule(doc[j]) ==> Distance(doc[k], from) < Distance(doc[j], from))
  }

  /** The rule at index `k` is the nearest to `from`, the earliest of those
      equally near. */
  predicate IsNearest(doc: seq<DocNode>, from: int, k: nat)
  {
    NearestAmong(doc, from, k, |doc|)
  }

  /** `p` is the position of the nearest rule. */
  predicate NearestAt(doc: seq<DocNode>, from: int, p: int)
  {
    exists k :: 0 <= k < |doc| && IsNearest(doc, from, k) && doc[k].pos == p
  }

  /** At most one rule is the nearest, so the search's answer is determined. */
  lemma NearestUnique(doc: seq<DocNode>, from: int, k1: nat, k2: nat)
    requires IsNearest(doc, from, k1) && IsNearest(doc, from, k2)
    ensures k1 == k2
  {
  }

  /** The scan over `state.doc.descendants` that `selectHorizontalRule` and
      `updateHorizontalRule` share: the position of the nearest rule, or -1
      when the document has none. A rule replaces the one kept so far only
      when it is strictly nearer, so ties go to the earliest. */
  method NearestRule(doc: seq<DocNode>, from: int) returns (nearestPos: int)
    ensures nearestPos == -1 <==> !HasRule(doc)
    ensures nearestPos != -1 ==> NearestAt(doc, from, nearestPos)
  {
    nearestPos := -1;
    var minDistance: Option<nat> := None;
    ghost var best: nat := 0;
    for i := 0 to |doc|
      invariant minDistance.None? <==> !HasRuleBefore(doc, i)
      invariant minDistance.None? ==> nearestPos == -1
      invariant minDistance.Some? ==>
        && NearestAmong(doc, from, best, i)
        && minDistance.value == Distance(doc[best], from)
        && nearestPos == doc[best].pos
    {
      if doc[i].typeName == RuleType {
        var distance := Distance(doc[i], from);
        if minDistance.None? || distance < minDistance.value {
          minDistance := Some(distance);
          nearestPos := doc[i].pos;
          best := i;
        }
      }
    }
    if minDistance.Some? {
      assert IsNearest(doc, from, best);
    }
  }

  /** The rule the selection points at without a search: the selected rule's
      anchor, the start of the rule just before the cursor, or the cursor when
      the rule is just after it. */
  function RuleAtCursor(sel: Selection): Option<int>
  {
    if sel.node == Some(RuleType) then Some(sel.anchor)
    else if sel.before.Some? && sel.before.value.typeName == RuleType then Some(sel.from - sel.before.value.nodeSize)
    else if sel.after.Some? && sel.after.value.typeName == RuleType then Some(sel.from)
    else None
  }

  /** `selectHorizontalRule()`. A selected rule needs nothing; a rule beside
      the cursor is selected; otherwise the nearest rule is selected, but only
      when `dispatch` is given: without it the command answers false even
      when the document has a rule. */
  method SelectHorizontalRule(tr: Transaction, dispatch: bool) returns (ok: bool)
    modifies tr
    ensures tr.doc == old(tr.doc) && tr.selection == old(tr.selection)
    ensures old(tr.selection).node == Some(RuleType) ==>
              ok && tr.newSelection == old(tr.newSelection) && tr.dispatched == old(tr.dispatched)
    ensures old(tr.selection).node != Some(RuleType) && RuleAtCursor(old(tr.selection)).Some? ==>
              && ok
              && (dispatch ==> tr.newSelection == RuleAtCursor(old(tr.selection)) && tr.dispatched)
              && (!dispatch ==> tr.newSelection == old(tr.newSelection) && tr.dispatched == old(tr.dispatched))
    ensures RuleAtCursor(old(tr.selection)).None? ==>
              && (ok <==> dispatch && HasRule(old(tr.doc)))
              && (ok ==> tr.dispatched && tr.newSelection.Some?
                         && NearestAt(old(tr.doc), old(tr.selection).from, tr.newSelection.value))
              && (!ok ==> tr.newSelection == old(tr.newSelection) && tr.dispatched == old(tr.dispatched))
  {
    var sel := tr.selection;
    if sel.node == Some(RuleType) {
      return true;
    }
    if sel.before.Some? && sel.before.value.typeName == RuleType {
      var pos := sel.from - sel.before.value.nodeSize;
      if dispatch {
        tr.SetNodeSelection(pos);
        tr.Dispatch();
      }
      return true;
    }
    if sel.after.Some? && sel.after.value.typeName == RuleType {
      var pos := sel.from;
      if dispatch {
        tr.SetNodeSelection(pos);
        tr.Dispatch();
      }
      return true;
    }
    var nearestPos := NearestRule(tr.doc, sel.from);
    if nearestPos != -1 && dispatch {
      tr.SetNodeSelection(nearestPos);
      tr.Dispatch();
      return true;
    }
    return false;
  }

  /** The node `updateHorizontalRule` restyles: a rule at the position the
      selection gives or, when it gives none, the nearest rule. */
  predicate UpdateTarget(doc: seq<DocNode>, sel: Selection, i: nat)
  {
    && i < |doc| && IsRule(doc[i])
    && (RuleAtCursor(sel).Some? ==> doc[i].pos == RuleAtCursor(sel).value)
    && (RuleAtCursor(sel).None? ==> IsNearest(doc, sel.from, i))
  }

  /** `updateHorizontalRule(options)`: the target rule takes the options over
      its attributes, other keys and other nodes unchanged; the answer is false
      when the position found holds no rule or no rule is found. */
  method UpdateHorizontalRule(tr: Transaction, options: Attrs, dispatch: bool) returns (ok: bool)
    requires WellFormed(tr.doc)
    modifies tr
    ensures ok <==> exists i: nat :: UpdateTarget(old(tr.doc), old(tr.selection), i)
    ensures tr.selection == old(tr.selection) && tr.newSelection == old(tr.newSelection)
    ensures !(ok && dispatch) ==> tr.doc == old(tr.doc) && tr.dispatched == old(tr.dispatched)
    ensures ok && dispatch ==>
              && tr.dispatched
              && exists i: nat :: UpdateTarget(old(tr.doc), old(tr.selection), i)
                   && tr.doc == old(tr.doc)[i := old(tr.doc)[i].(attrs := old(tr.doc)[i].attrs + options)]
  {
    var sel := tr.selection;
    var doc := tr.doc;
    var hrPos: Option<int> := None;
    if sel.node == Some(RuleType) {
      hrPos := Some(sel.anchor);
    } else if sel.before.Some? && sel.before.value.typeName == RuleType {
      hrPos := Some(sel.from - sel.before.value.nodeSize);
    } else if sel.after.Some? && sel.after.value.typeName == RuleType {
      hrPos := Some(sel.from);
    } else {
      var nearestPos := NearestRule(doc, sel.from);
      if nearestPos != -1 {
        hrPos := Some(nearestPos);
      }
    }
    assert hrPos == RuleAtCursor(sel) || (RuleAtCursor(sel).None? && (hrPos.Some? ==> NearestAt(doc, sel.from, hrPos.value)));
    assert RuleAtCursor(sel).None? && hrPos.None? ==> !HasRule(doc);
    ok := false;
    if hrPos.Some? {
      var at := NodeAt(doc, hrPos.value);
      if at.Some? && doc[at.value].typeName == RuleType {
        TargetFound(doc, sel, hrPos.value, at.value);
        if dispatch {
          tr.SetNodeMarkup(at.value, doc[at.value].attrs + options);
          tr.Dispatch();
        }
        ok := true;
      } else {
        TargetMissing(doc, sel, hrPos.value);
      }
    }
  }

  /** The rule found at the chosen position is the target. */
  lemma TargetFound(doc: seq<DocNode>, sel: Selection, p: int, i: nat)
    requires WellFormed(doc)
    requires RuleAtCursor(sel) == Some(p) || (RuleAtCursor(sel).None? && NearestAt(doc, sel.from, p))
    requires i < |doc| && doc[i].pos == p && IsRule(doc[i])
    ensures UpdateTarget(doc, sel, i)
  {
    if RuleAtCursor(sel).None? {
      var k :| 0 <= k < |doc| && IsNearest(doc, sel.from, k) && doc[k].pos == p;
      assert k == i;
    }
  }

  /** When no rule starts at the chosen position, there is no target. */
  lemma TargetMissing(doc: seq<DocNode>, sel: Selection, p: int)
    requires WellFormed(doc)
    requires RuleAtCursor(sel) == Some(p) || (RuleAtCursor(sel).None? && NearestAt(doc, sel.from, p))
    requires NodeAt(doc, p).None? || !IsRule(doc[NodeAt(doc, p).value])
    ensures forall i: nat :: !UpdateTarget(doc, sel, i)
  {
    forall i: nat | UpdateTarget(doc, sel, i) ensures false {
      if RuleAtCursor(sel).None? {
        var k :| 0 <= k < |doc| && IsNearest(doc, sel.from, k) && doc[k].pos == p;
        NearestUnique(doc, sel.from, i, k);
      }
      NodeAtOwnPosition(doc, i);
    }
  }
}
