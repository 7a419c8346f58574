/** frontend-next/src/lib/fontSize.ts: the `fontSize` attribute of the
    `textStyle` mark, kept without its "px" unit and rendered with it, and the
    commands that set and clear it. */
module FontSize {
  import opened Wrappers
  import opened Strings
  import opened EditorDoc
  import InlineStyle

  const MarkType: string := "textStyle"
  const Key: string := "fontSize"
  const Property: string := "font-size"
  const Unit: string := "px"

  /** `value.replace("px", "")`: the first "px" removed. */
  function StripUnit(value: string): string
  {
    ReplaceFirst(value, Unit, "")
  }

  /** `renderHTML`: nothing when unset, else `font-size: <size>px` with the
      first "px" of the stored value removed. */
  function Render(v: Value): Element
  {
    if !Truthy(v) then map[] else map["style" := InlineStyle.Decl(Property, StripUnit(v.s) + Unit)]
  }

  /** `parseHTML`: `null` for a missing or empty size, else the size without
      its first "px". */
  function Parse(el: Element): Value
  {
    var found := InlineStyle.StyleOf(el, Property);
    if found.None? || found.value == "" then Null else Str(StripUnit(found.value))
  }

  /** `pat` is found right after a string none of whose characters starts it. */
  lemma FindAfter(a: string, pat: string)
    requires pat != ""
    requires forall i :: 0 <= i < |a| ==> a[i] != pat[0]
    ensures Find(a + pat, pat) == |a|
    ensures Find(a, pat) == -1
  {
    var s := a + pat;
    assert OccursAt(s, pat, |a|);
    forall j | 0 <= j < |a| ensures !OccursAt(s, pat, j) {
      assert s[j] == a[j];
    }
    forall j | 0 <= j <= |a| ensures !OccursAt(a, pat, j) {
      if j + |pat| <= |a| {
        assert a[j..j + |pat|][0] == a[j] != pat[0];
      }
    }
  }

  /** A size written in pixels, with or without its unit, is stored as its
      bare number and rendered back with the unit. */
  lemma Pixels(digits: string)
    requires digits != "" && AllDigits(digits)
    ensures StripUnit(digits) == digits && StripUnit(digits + Unit) == digits
    ensures Render(Str(digits)) == Render(Str(digits + Unit))
           == map["style" := InlineStyle.Decl(Property, digits + Unit)]
  {
    FindAfter(digits, Unit);
    assert (digits + Unit)[..|digits|] == digits;
  }

  lemma PixelsPlain(digits: string)
    requires digits != "" && AllDigits(digits)
    ensures InlineStyle.Plain(digits + Unit)
  {
    assert forall i :: 0 <= i < |digits| ==> (digits + Unit)[i] == digits[i];
  }

  /** The declaration a pixel size renders to parses as the bare number. */
  lemma ParsePixels(digits: string)
    requires digits != "" && AllDigits(digits)
    ensures Parse(map["style" := InlineStyle.Decl(Property, digits + Unit)]) == Str(digits)
  {
    PixelsPlain(digits);
    InlineStyle.StyleOfSingle(Property, digits + Unit);
    Pixels(digits);
  }

  /** A size in pixels survives rendering and parsing as its bare number. */
  lemma RoundTrip(digits: string)
    requires digits != "" && AllDigits(digits)
    ensures Parse(Render(Str(digits))) == Str(digits)
    ensures Parse(Render(Str(digits + Unit))) == Str(digits)
  {
    Pixels(digits);
    ParsePixels(digits);
  }

  /** An unset size renders nothing and nothing parses as unset. */
  lemma Unset(v: Value)
    requires !Truthy(v)
    ensures Render(v) == map[]
    ensures Parse(map[]) == Null
  {
    InlineStyle.LookupEmpty(Property);
  }

  /** `setFontSize(fontSize)`: the value, unit included if given, goes to the
      `textStyle` mark. */
  function SetFontSize(fontSize: string): Outcome
  {
    Chained([SetMark(MarkType, Key, Str(fontSize))])
  }

  /** `unsetFontSize()`: the size is cleared and an emptied `textStyle` mark
      removed. */
  function UnsetFontSize(): Outcome
  {
    Chained([SetMark(MarkType, Key, Null), RemoveEmptyTextStyle])
  }
}
