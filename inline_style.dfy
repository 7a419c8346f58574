/** Reading an inline `style` attribute, as the PDF converter of
    frontend-next/src/utils/pdfGenerator.tsx does it: split on ';', each
    declaration split on ':' with only the first two parts kept and both
    trimmed, later declarations of a property overriding earlier ones. The
    same reader stands for the browser's `element.style.<property>` where the
    editor extensions parse a style back. */
module InlineStyle {
  import opened Wrappers
  import opened Strings

  /** `const [prop, value] = style.split(":").map((s) => s.trim())`; a
      missing value reads as "". */
  function Declaration(d: string): (string, string)
  {
    var parts := Split(d, ':');
    (Trim(parts[0]), if |parts| >= 2 then Trim(parts[1]) else "")
  }

  /** The value of the last declaration of `prop` whose property and value
      are both non-empty. */
  function LastValue(decls: seq<string>, prop: string): Option<string>
  {
    if decls == [] then None
    else
      var (p, v) := Declaration(decls[|decls| - 1]);
      if p != "" && v != "" && p == prop then Some(v) else LastValue(decls[..|decls| - 1], prop)
  }

  /** The value `style` gives `prop`. */
  function Lookup(style: string, prop: string): Option<string>
  {
    LastValue(Split(style, ';'), prop)
  }

  /** `element.style.<prop>` of an element with attributes `el`, before the
      `|| null` every caller applies. */
  function StyleOf(el: map<string, string>, prop: string): Option<string>
  {
    Lookup(if "style" in el then el["style"] else "", prop)
  }

  /** An element with only a `style` holding one plain declaration gives its
      property that value, and an element without a `style` gives nothing. */
  lemma StyleOfSingle(prop: string, value: string)
    requires Plain(prop) && Plain(value)
    ensures StyleOf(map["style" := Decl(prop, value)], prop) == Some(value)
    ensures StyleOf(map[], prop).None?
  {
    LookupSingle(prop, value, prop);
    LookupEmpty(prop);
  }

  /** A non-empty string that neither starts nor ends with white space and
      holds no ';' or ':'. */
  predicate Plain(s: string)
  {
    s != "" && !IsJsSpace(s[0]) && !IsJsSpace(s[|s| - 1]) && ';' !in s && ':' !in s
  }

  /** `prop: value`, the way the editor writes a declaration. */
  function Decl(prop: string, value: string): string
  {
    prop + ": " + value
  }

  /** A single declaration is read back as written. */
  lemma ReadDeclaration(prop: string, value: string)
    requires Plain(prop) && Plain(value)
    ensures Declaration(Decl(prop, value)) == (prop, value)
  {
    var d := Decl(prop, value);
    assert d == Join([prop, " " + value], [':']);
    JoinSplit([prop, " " + value], ':');
    TrimKeepsUnspaced(prop);
    TrimKeepsUnspaced(value);
    TrimLeadingSpace(value);
  }

  lemma TrimLeadingSpace(s: string)
    ensures Trim(" " + s) == Trim(s)
  {
    var t := " " + s;
    assert t[1..] == s;
    assert TrimStart(t) == TrimStart(s);
    assert Trim(t) == TrimEnd(TrimStart(t));
    assert Trim(s) == TrimEnd(TrimStart(s));
  }

  lemma SplitWithout(s: string, sep: char)
    requires sep !in s
    ensures Split(s, sep) == [s]
  {
  }

  lemma LastValueSingle(d: string, prop: string)
    ensures LastValue([d], prop)
         == (var (p, v) := Declaration(d); if p != "" && v != "" && p == prop then Some(v) else None)
  {
    assert [d][..0] == [];
  }

  /** An empty style gives no property a value. */
  lemma LookupEmpty(prop: string)
    ensures Lookup("", prop).None?
  {
    var decls := Split("", ';');
    assert decls == [""] by { SplitWithout("", ';'); }
    LastValueSingle("", prop);
    var parts := Split("", ':');
    assert parts == [""] by { SplitWithout("", ':'); }
    assert Trim("") == "";
  }

  /** A style made of one plain declaration gives its property that value and
      no other property anything. */
  lemma LookupSingle(prop: string, value: string, other: string)
    requires Plain(prop) && Plain(value)
    ensures Lookup(Decl(prop, value), prop) == Some(value)
    ensures other != prop ==> Lookup(Decl(prop, value), other).None?
  {
    var d := Decl(prop, value);
    assert ';' !in d;
    SplitWithout(d, ';');
    ReadDeclaration(prop, value);
    LastValueSingle(d, prop);
    LastValueSingle(d, other);
  }
}
