/** The inline-style reader of `processNode` in
    frontend-next/src/utils/pdfGenerator.tsx: of an element's `style`
    attribute it keeps seven properties, the last usable declaration of each
    winning, and turns `font-size` into a number with JavaScript's
    `parseInt`. */
module PdfStyle {
  import opened Wrappers
  import opened Strings
  import InlineStyle

  const FontSizeProp: string := "font-size"
  const FontWeightProp: string := "font-weight"
  const FontStyleProp: string := "font-style"
  const ColorProp: string := "color"
  const TextAlignProp: string := "text-align"
  const MarginTopProp: string := "margin-top"
  const MarginBottomProp: string := "margin-bottom"

  /** What `parseInt` returns: `NaN` or an integer. */
  datatype Num = NaN | Int(i: int)

  /** The longest prefix of decimal digits. */
  function DigitPrefix(s: string): (r: string)
    ensures AllDigits(r) && IsPrefix(r, s)
    ensures |r| < |s| ==> !IsDigit(s[|r|])
  {
    if s == [] || !IsDigit(s[0]) then [] else [s[0]] + DigitPrefix(s[1..])
  }

  predicate IsHexDigit(c: char)
  {
    IsDigit(c) || 'a' <= c <= 'f' || 'A' <= c <= 'F'
  }

  function HexDigitValue(c: char): (n: nat)
    requires IsHexDigit(c)
    ensures n < 16
  {
    if IsDigit(c) then DigitValue(c)
    else if 'a' <= c <= 'f' then c as int - 'a' as int + 10
    else c as int - 'A' as int + 10
  }

  /** The longest prefix of hexadecimal digits. */
  function HexPrefix(s: string): (r: string)
    ensures IsPrefix(r, s) && forall i :: 0 <= i < |r| ==> IsHexDigit(r[i])
  {
    if s == [] || !IsHexDigit(s[0]) then [] else [s[0]] + HexPrefix(s[1..])
  }

  function HexValue(s: string): nat
    requires forall i :: 0 <= i < |s| ==> IsHexDigit(s[i])
  {
    if s == [] then 0 else HexValue(s[..|s| - 1]) * 16 + HexDigitValue(s[|s| - 1])
  }

  /** The digits of `parseInt` after the sign: "0x" or "0X" starts
      hexadecimal, otherwise the longest run of decimal digits; `None` when
      there is no digit. */
  function Magnitude(u: string): Option<nat>
  {
    if |u| >= 2 && u[0] == '0' && (u[1] == 'x' || u[1] == 'X') then
      var hs := HexPrefix(u[2..]);
      if hs == [] then None else Some(HexValue(hs))
    else
      var ds := DigitPrefix(u);
      if ds == [] then None else Some(DigitsValue(ds))
  }

  /** `parseInt` after the leading white space: an optional sign, then the
      magnitude. */
  function Signed(t: string): Num
  {
    var negative := t != [] && t[0] == '-';
    var m := Magnitude(if t != [] && (t[0] == '-' || t[0] == '+') then t[1..] else t);
    if m.None? then NaN else if negative then Int(-(m.value as int)) else Int(m.value)
  }

  /** JavaScript's `parseInt(s)` with no radix: leading white space skipped,
      then a signed magnitude; no digit gives `NaN`. */
  function ParseInt(s: string): Num
  {
    Signed(TrimStart(s))
  }

  lemma {:induction false} DigitPrefixOf(ds: string, rest: string)
    requires AllDigits(ds)
    requires rest == [] || !IsDigit(rest[0])
    ensures DigitPrefix(ds + rest) == ds
    decreases |ds|
  {
    if ds != [] {
      assert (ds + rest)[1..] == ds[1..] + rest;
      DigitPrefixOf(ds[1..], rest);
    } else {
      assert ds + rest == rest;
    }
  }

  /** A run of decimal digits followed by anything that is neither a digit
      nor an 'x' has its value as magnitude. */
  lemma MagnitudeDecimal(ds: string, rest: string)
    requires ds != "" && AllDigits(ds)
    requires rest == [] || (!IsDigit(rest[0]) && rest[0] != 'x' && rest[0] != 'X')
    ensures Magnitude(ds + rest) == Some(DigitsValue(ds))
  {
    var s := ds + rest;
    assert |s| >= 2 ==> s[1] != 'x' && s[1] != 'X' by {
      if |s| >= 2 {
        if |ds| >= 2 { assert s[1] == ds[1]; } else { assert s[1] == rest[0]; }
      }
    }
    DigitPrefixOf(ds, rest);
  }

  /** A run of digits followed by anything that is neither a digit nor an
      'x' reads as the run's value: "12px" is 12. */
  lemma ParseIntDecimal(ds: string, rest: string)
    requires ds != "" && AllDigits(ds)
    requires rest == [] || (!IsDigit(rest[0]) && rest[0] != 'x' && rest[0] != 'X')
    ensures ParseInt(ds + rest) == Int(DigitsValue(ds))
  {
    var s := ds + rest;
    assert s[0] == ds[0];
    UnsignedValue(s, DigitsValue(ds)) by {
      MagnitudeDecimal(ds, rest);
    }
  }

  /** A string starting with a digit reads as its magnitude. */
  lemma UnsignedValue(t: string, n: nat)
    requires t != [] && IsDigit(t[0]) && Magnitude(t) == Some(n)
    ensures ParseInt(t) == Int(n)
  {
    TrimStartKeeps(t);
    SignedUnsigned(t, n);
  }

  lemma NegativeDigits(t: string, ds: string)
    requires ds != "" && AllDigits(ds)
    requires t != [] && t[0] == '-' && t[1..] == ds
    ensures ParseInt(t) == Int(-(DigitsValue(ds) as int))
  {
    MagnitudeDigits(ds);
    NegativeValue(t, DigitsValue(ds));
  }

  lemma MagnitudeDigits(ds: string)
    requires ds != "" && AllDigits(ds)
    ensures Magnitude(ds) == Some(DigitsValue(ds))
  {
    assert ds + [] == ds;
    MagnitudeDecimal(ds, []);
  }

  /** A string starting with a minus sign reads as the negated magnitude of
      the rest. */
  lemma NegativeValue(t: string, n: nat)
    requires t != [] && t[0] == '-' && Magnitude(t[1..]) == Some(n)
    ensures ParseInt(t) == Int(-(n as int))
  {
    TrimStartKeeps(t);
    SignedNegative(t, n);
  }

  lemma SignedNegative(t: string, n: nat)
    requires t != [] && t[0] == '-' && Magnitude(t[1..]) == Some(n)
    ensures Signed(t) == Int(-(n as int))
  {
  }

  lemma TrimStartKeeps(t: string)
    requires t != [] && !IsJsSpace(t[0])
    ensures TrimStart(t) == t
  {
  }

  lemma SignedUnsigned(t: string, n: nat)
    requires t != [] && IsDigit(t[0]) && Magnitude(t) == Some(n)
    ensures Signed(t) == Int(n)
  {
  }

  /** A leading minus sign negates. */
  lemma ParseIntNegative(ds: string)
    requires ds != "" && AllDigits(ds)
    ensures ParseInt("-" + ds) == Int(-(DigitsValue(ds) as int))
  {
    NegativeDigits("-" + ds, ds);
  }

  /** A value that does not start with white space, a sign or a digit is
      `NaN`: "large" gives no size. */
  lemma ParseIntNotANumber(s: string)
    requires s != "" && !IsJsSpace(s[0]) && !IsDigit(s[0]) && s[0] != '-' && s[0] != '+'
    ensures ParseInt(s) == NaN
  {
    TrimStartKeeps(s);
  }

  /** The `styleObj` built from the declarations: each field is absent until
      a declaration of its property sets it. */
  datatype Style = Style(
    fontSize: Option<Num>, fontWeight: Option<string>, fontStyle: Option<string>,
    color: Option<string>, textAlign: Option<string>,
    marginTop: Option<string>, marginBottom: Option<string>)

  const EmptyStyle: Style := Style(None, None, None, None, None, None, None)

  function NumOf(v: Option<string>): Option<Num>
  {
    if v.None? then None else Some(ParseInt(v.value))
  }

  /** The branch of the `if … else if` chain one declaration takes. */
  function Assign(obj: Style, prop: string, value: string): Style
  {
    if prop == FontSizeProp then obj.(fontSize := Some(ParseInt(value)))
    else if prop == FontWeightProp then obj.(fontWeight := Some(value))
    else if prop == FontStyleProp then obj.(fontStyle := Some(value))
    else if prop == ColorProp then obj.(color := Some(value))
    else if prop == TextAlignProp then obj.(textAlign := Some(value))
    else if prop == MarginTopProp then obj.(marginTop := Some(value))
    else if prop == MarginBottomProp then obj.(marginBottom := Some(value))
    else obj
  }

  /** The style the declarations build, applied in order: a declaration
      whose property and value are both non-empty goes through the chain. */
  function StyleFrom(decls: seq<string>): Style
    decreases |decls|, 1
  {
    if decls == [] then EmptyStyle else StyleAfterLast(decls)
  }

  /** The style before the last declaration, with the last applied. */
  function StyleAfterLast(decls: seq<string>): Style
    requires decls != []
    decreases |decls|, 0
  {
    var obj := StyleFrom(decls[..|decls| - 1]);
    var (p, v) := InlineStyle.Declaration(decls[|decls| - 1]);
    if p != "" && v != "" then Assign(obj, p, v) else obj
  }

  /** Each kept property takes the value of its last declaration with a
      non-empty property and value: the order of declarations of different
      properties does not matter. */
  lemma {:induction false} LastDeclarationWins(decls: seq<string>)
    ensures StyleFrom(decls)
         == Style(NumOf(InlineStyle.LastValue(decls, FontSizeProp)),
                  InlineStyle.LastValue(decls, FontWeightProp),
                  InlineStyle.LastValue(decls, FontStyleProp),
                  InlineStyle.LastValue(decls, ColorProp),
                  InlineStyle.LastValue(decls, TextAlignProp),
                  InlineStyle.LastValue(decls, MarginTopProp),
                  InlineStyle.LastValue(decls, MarginBottomProp))
  {
    if decls != [] {
      LastDeclarationWins(decls[..|decls| - 1]);
    }
  }

  /** One more declaration changes the style as the chain does, and only
      when both its property and its value are non-empty. */
  lemma StyleSnoc(decls: seq<string>, d: string)
    ensures StyleFrom(decls + [d])
         == (var (p, v) := InlineStyle.Declaration(d);
             if p != "" && v != "" then Assign(StyleFrom(decls), p, v) else StyleFrom(decls))
  {
    assert (decls + [d])[..|decls|] == decls;
  }

  /** The style an element's `style` attribute gives. */
  function InlineStyleOf(style: string): Style
  {
    StyleFrom(Split(style, ';'))
  }

  /** The parsing loop of `processNode`: for a non-empty attribute, each
      ';'-separated declaration split on ':' into a trimmed property and
      value and, when both are non-empty, assigned by the chain. */
  method ParseInlineStyle(inlineStyle: string) returns (styleObj: Style)
    ensures styleObj == InlineStyleOf(inlineStyle)
  {
    if inlineStyle != "" {
      styleObj := ApplyDeclarations(Split(inlineStyle, ';'));
    } else {
      styleObj := EmptyStyle;
      EmptyStyleOfEmpty();
    }
  }

  /** `forEach` over the declarations. */
  method ApplyDeclarations(decls: seq<string>) returns (styleObj: Style)
    ensures styleObj == StyleFrom(decls)
  {
    styleObj := EmptyStyle;
    var i := 0;
    while i < |decls|
      invariant 0 <= i <= |decls|
      invariant styleObj == StyleFrom(decls[..i])
    {
      var (prop, value) := InlineStyle.Declaration(decls[i]);
      if prop != "" && value != "" {
        styleObj := Assign(styleObj, prop, value);
      }
      assert decls[..i + 1][..i] == decls[..i];
      i := i + 1;
    }
    assert decls[..|decls|] == decls;
  }

  /** An absent or empty attribute gives the empty style. */
  lemma EmptyStyleOfEmpty()
    ensures InlineStyleOf("") == EmptyStyle
  {
    InlineStyle.SplitWithout("", ';');
    assert Split("", ';') == [] + [""];
    StyleSnoc([], "");
    InlineStyle.SplitWithout("", ':');
  }

  /** Declarations of other properties, and declarations with an empty
      property or value, change nothing. */
  lemma Ignored(decls: seq<string>, d: string)
    requires var (p, v) := InlineStyle.Declaration(d);
             p == "" || v == "" || p !in {FontSizeProp, FontWeightProp, FontStyleProp, ColorProp,
                                          TextAlignProp, MarginTopProp, MarginBottomProp}
    ensures StyleFrom(decls + [d]) == StyleFrom(decls)
  {
    StyleSnoc(decls, d);
  }

  /** A later declaration of a property overrides an earlier one. */
  lemma LaterWins(decls: seq<string>, prop: string, value: string)
    requires InlineStyle.Plain(prop) && InlineStyle.Plain(value)
    ensures StyleFrom(decls + [InlineStyle.Decl(prop, value)]) == Assign(StyleFrom(decls), prop, value)
  {
    InlineStyle.ReadDeclaration(prop, value);
    StyleSnoc(decls, InlineStyle.Decl(prop, value));
  }

  /** A style made of one plain declaration. */
  lemma Single(prop: string, value: string)
    requires InlineStyle.Plain(prop) && InlineStyle.Plain(value)
    ensures InlineStyleOf(InlineStyle.Decl(prop, value)) == Assign(EmptyStyle, prop, value)
  {
    var d := InlineStyle.Decl(prop, value);
    assert ';' !in d;
    InlineStyle.SplitWithout(d, ';');
    assert [d] == [] + [d];
    LaterWins([], prop, value);
  }
}
