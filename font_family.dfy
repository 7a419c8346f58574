/** frontend-next/src/lib/fontFamily.ts: the `fontFamily` attribute of the
    `textStyle` mark, rendered as an inline `font-family` and read back with
    its quotes removed, and the commands that set and clear it. */
module FontFamily {
  import opened Wrappers
  import opened Strings
  import opened EditorDoc
  import InlineStyle

  const MarkType: string := "textStyle"
  const Key: string := "fontFamily"
  const Property: string := "font-family"

  /** The characters `/['"]/g` removes. */
  const Quotes: set<char> := {'\'', '"'}

  /** `renderHTML`: nothing when unset, else `font-family: <value>`. */
  function Render(v: Value): Element
  {
    if !Truthy(v) then map[] else map["style" := InlineStyle.Decl(Property, v.s)]
  }

  /** `parseHTML`: `null` for a missing or empty family, else the family with
      every quote removed. */
  function Parse(el: Element): (r: Value)
    ensures r.Str? ==> NoneOf(r.s, Quotes)
  {
    var found := InlineStyle.StyleOf(el, Property);
    if found.None? || found.value == "" then Null else Str(RemoveChars(found.value, Quotes))
  }

  /** A family list without quotes survives rendering and parsing unchanged,
      and an unset one stays unset. */
  lemma RoundTrip(v: Value)
    requires Truthy(v) ==> InlineStyle.Plain(v.s) && NoneOf(v.s, Quotes)
    ensures Truthy(v) ==> Parse(Render(v)) == v
    ensures !Truthy(v) ==> Parse(Render(v)) == Null
  {
    if Truthy(v) {
      InlineStyle.StyleOfSingle(Property, v.s);
      RemoveCharsAbsent(v.s, Quotes);
    } else {
      InlineStyle.LookupEmpty(Property);
    }
  }

  /** Quotes are dropped on the way back: a quoted family reads as the bare
      name. */
  lemma QuotedName(name: string)
    requires InlineStyle.Plain(name) && NoneOf(name, Quotes)
    ensures Parse(Render(Str("'" + name + "'"))) == Str(name)
  {
    var quoted := "'" + name + "'";
    QuotedPlain(name);
    InlineStyle.StyleOfSingle(Property, quoted);
    StripQuotes(name);
  }

  lemma QuotedPlain(name: string)
    requires InlineStyle.Plain(name)
    ensures InlineStyle.Plain("'" + name + "'")
  {
    var quoted := "'" + name + "'";
    assert forall i :: 0 <= i < |name| ==> quoted[i + 1] == name[i];
  }

  lemma StripQuotes(name: string)
    requires NoneOf(name, Quotes)
    ensures RemoveChars("'" + name + "'", Quotes) == name
  {
    var quoted := "'" + name + "'";
    RemoveCharsAbsent(name, Quotes);
    assert quoted[1..] == name + "'";
    RemoveCharsAppend(name, "'", Quotes);
    assert RemoveChars("'", Quotes) == RemoveChars("", Quotes) == "";
  }

  /** A family made only of quotes passes the emptiness check and reads as
      the empty string rather than as unset. */
  lemma QuotesOnly()
    ensures Parse(Render(Str("\"\""))) == Str("")
  {
    BareQuotes("\"\"");
  }

  lemma BareQuotes(q: string)
    requires |q| == 2 && q[0] == '"' && q[1] == '"'
    ensures Parse(Render(Str(q))) == Str("")
  {
    assert InlineStyle.Plain(q);
    InlineStyle.StyleOfSingle(Property, q);
    assert RemoveChars(q, Quotes) == RemoveChars(q[1..], Quotes);
    assert RemoveChars(q[1..], Quotes) == RemoveChars(q[2..], Quotes);
    assert q[2..] == [];
  }

  lemma {:induction false} RemoveCharsAppend(a: string, b: string, cs: set<char>)
    ensures RemoveChars(a + b, cs) == RemoveChars(a, cs) + RemoveChars(b, cs)
    decreases |a|
  {
    if a == [] {
      assert a + b == b;
    } else {
      var s := a + b;
      assert s[0] == a[0] && s[1..] == a[1..] + b;
      RemoveCharsAppend(a[1..], b, cs);
      if a[0] in cs {
        assert RemoveChars(s, cs) == RemoveChars(a[1..] + b, cs);
      } else {
        assert RemoveChars(s, cs) == [a[0]] + RemoveChars(a[1..] + b, cs);
      }
    }
  }

  /** `setFontFamily(fontFamily)`: the value goes to the `textStyle` mark. */
  function SetFontFamily(fontFamily: string): Outcome
  {
    Chained([SetMark(MarkType, Key, Str(fontFamily))])
  }

  /** `unsetFontFamily()`: the family is cleared and an emptied `textStyle`
      mark removed. */
  function UnsetFontFamily(): Outcome
  {
    Chained([SetMark(MarkType, Key, Null), RemoveEmptyTextStyle])
  }
}
