/** String operations of Python and JavaScript that the modelled code relies
    on, written out on `seq<char>`. */
module Strings {

  import opened Wrappers

  /** Index of the first occurrence of `c` in `s`. */
  function IndexOf(s: string, c: char): (i: nat)
    requires c in s
    ensures i < |s| && s[i] == c && c !in s[..i]
  {
    if s[0] == c then 0 else 1 + IndexOf(s[1..], c)
  }

  /** Python's `s.split(sep)` for a one-character separator. */
  function Split(s: string, sep: char): (parts: seq<string>)
    ensures |parts| >= 1
    ensures forall i :: 0 <= i < |parts| ==> sep !in parts[i]
    decreases |s|
  {
    if sep !in s then [s]
    else
      var i := IndexOf(s, sep);
      [s[..i]] + Split(s[i + 1..], sep)
  }

  /** `sep.join(parts)` in Python, `parts.join(sep)` in JavaScript. */
  function Join(parts: seq<string>, sep: string): string
  {
    if |parts| == 0 then ""
    else if |parts| == 1 then parts[0]
    else parts[0] + sep + Join(parts[1..], sep)
  }

  lemma {:induction false} SplitJoin(s: string, sep: char)
    ensures Join(Split(s, sep), [sep]) == s
    decreases |s|
  {
    if sep in s {
      var i := IndexOf(s, sep);
      var rest := Split(s[i + 1..], sep);
      SplitJoin(s[i + 1..], sep);
      assert Split(s, sep) == [s[..i]] + rest;
      JoinCons(s[..i], rest, [sep]);
      SliceAround(s, i);
    }
  }

  lemma JoinCons(a: string, rest: seq<string>, sep: string)
    requires |rest| >= 1
    ensures Join([a] + rest, sep) == a + sep + Join(rest, sep)
  {
    assert ([a] + rest)[1..] == rest;
  }

  lemma {:induction false} JoinSnoc(parts: seq<string>, last: string, sep: string)
    requires parts != []
    ensures Join(parts + [last], sep) == Join(parts, sep) + sep + last
    decreases |parts|
  {
    if |parts| == 1 {
      assert parts + [last] == [parts[0]] + [last];
      JoinCons(parts[0], [last], sep);
    } else {
      assert (parts + [last])[1..] == parts[1..] + [last];
      JoinCons(parts[0], parts[1..] + [last], sep);
      JoinSnoc(parts[1..], last, sep);
      JoinCons(parts[0], parts[1..], sep);
      assert [parts[0]] + parts[1..] == parts;
    }
  }

  /** Joining two non-empty lists puts one separator between them. */
  lemma {:induction false} JoinAppend(a: seq<string>, b: seq<string>, sep: string)
    requires a != [] && b != []
    ensures Join(a + b, sep) == Join(a, sep) + sep + Join(b, sep)
    decreases |a|
  {
    if |a| == 1 {
      assert a + b == [a[0]] + b;
      JoinCons(a[0], b, sep);
    } else {
      assert (a + b)[1..] == a[1..] + b;
      JoinCons(a[0], a[1..] + b, sep);
      JoinAppend(a[1..], b, sep);
      JoinCons(a[0], a[1..], sep);
      assert [a[0]] + a[1..] == a;
    }
  }

  lemma SliceAround(s: string, i: nat)
    requires i < |s|
    ensures s == s[..i] + [s[i]] + s[i + 1..]
  {
  }

  lemma {:induction false} IndexOfAfter(a: string, c: char, b: string)
    requires c !in a
    ensures c in a + [c] + b && IndexOf(a + [c] + b, c) == |a|
    decreases |a|
  {
    var s := a + [c] + b;
    assert s[|a|] == c;
    if a != [] {
      assert s[1..] == a[1..] + [c] + b;
      IndexOfAfter(a[1..], c, b);
    }
  }

  lemma {:induction false} JoinSplit(parts: seq<string>, sep: char)
    requires |parts| >= 1
    requires forall i :: 0 <= i < |parts| ==> sep !in parts[i]
    ensures Split(Join(parts, [sep]), sep) == parts
    decreases |parts|
  {
    if |parts| > 1 {
      var rest := Join(parts[1..], [sep]);
      var s := Join(parts, [sep]);
      assert s == parts[0] + [sep] + rest;
      IndexOfAfter(parts[0], sep, rest);
      var i := IndexOf(s, sep);
      assert s[..i] == parts[0];
      assert s[i + 1..] == rest;
      JoinSplit(parts[1..], sep);
    }
  }

  /** The non-empty strings of `parts`, in order (`[p for p in parts if p]`). */
  function NonEmpty(parts: seq<string>): (r: seq<string>)
    ensures |r| <= |parts|
    ensures forall i :: 0 <= i < |r| ==> r[i] != "" && r[i] in parts
  {
    if |parts| == 0 then []
    else if parts[0] == "" then NonEmpty(parts[1..])
    else [parts[0]] + NonEmpty(parts[1..])
  }

  lemma {:induction false} NonEmptyKeepsAll(parts: seq<string>)
    requires forall i :: 0 <= i < |parts| ==> parts[i] != ""
    ensures NonEmpty(parts) == parts
  {
    if parts != [] {
      NonEmptyKeepsAll(parts[1..]);
    }
  }

  /** No character of `s` is in `cs`. */
  /** Concatenation regroups freely. */
  lemma ConcatAssoc<T>(a: seq<T>, b: seq<T>, c: seq<T>)
    ensures (a + b) + c == a + (b + c)
  {
  }

  predicate NoneOf(s: string, cs: set<char>)
  {
    forall i :: 0 <= i < |s| ==> s[i] !in cs
  }

  lemma NoneOfConcat(a: string, b: string, cs: set<char>)
    requires NoneOf(a, cs) && NoneOf(b, cs)
    ensures NoneOf(a + b, cs)
  {
    forall i | 0 <= i < |a + b| ensures (a + b)[i] !in cs {
      if i >= |a| {
        assert (a + b)[i] == b[i - |a|];
      }
    }
  }

  lemma {:induction false} JoinNoneOf(parts: seq<string>, sep: string, cs: set<char>)
    requires forall i :: 0 <= i < |parts| ==> NoneOf(parts[i], cs)
    requires NoneOf(sep, cs)
    ensures NoneOf(Join(parts, sep), cs)
    decreases |parts|
  {
    if |parts| > 1 {
      JoinNoneOf(parts[1..], sep, cs);
      NoneOfConcat(parts[0], sep, cs);
      NoneOfConcat(parts[0] + sep, Join(parts[1..], sep), cs);
    }
  }

  /** A join of non-empty parts starts with the first part's first character
      and ends with the last part's last character. */
  lemma {:induction false} JoinEnds(parts: seq<string>, sep: string)
    requires |parts| >= 1
    requires forall i :: 0 <= i < |parts| ==> parts[i] != ""
    ensures var j := Join(parts, sep);
      j != "" && j[0] == parts[0][0] && j[|j| - 1] == parts[|parts| - 1][|parts[|parts| - 1]| - 1]
    decreases |parts|
  {
    if |parts| > 1 {
      JoinEnds(parts[1..], sep);
    }
  }

  /** Python's `s.strip(c)`: every leading and trailing `c` removed. */
  function StripChar(s: string, c: char): (r: string)
    ensures |r| <= |s|
    ensures r != "" ==> r[0] != c && r[|r| - 1] != c
  {
    StripEnd(StripStart(s, c), c)
  }

  function StripStart(s: string, c: char): (r: string)
    ensures |r| <= |s| && (r != "" ==> r[0] != c)
    ensures r == s[|s| - |r|..]
  {
    if s != [] && s[0] == c then StripStart(s[1..], c) else s
  }

  function StripEnd(s: string, c: char): (r: string)
    ensures |r| <= |s| && (r != "" ==> r[|r| - 1] != c)
    ensures r == s[..|r|]
  {
    if s != [] && s[|s| - 1] == c then StripEnd(s[..|s| - 1], c) else s
  }

  /** The characters JavaScript's `String.prototype.trim` removes (the
      Unicode space separators of category Zs, the line terminators and the
      byte order mark). */
  predicate IsJsSpace(c: char)
  {
    c == ' ' || c == '\t' || c == '\n' || c == '\r' || c == '\U{000B}' || c == '\U{000C}'
    || c == '\U{00A0}' || c == '\U{1680}' || ('\U{2000}' <= c <= '\U{200A}')
    || c == '\U{2028}' || c == '\U{2029}' || c == '\U{202F}' || c == '\U{205F}'
    || c == '\U{3000}' || c == '\U{FEFF}'
  }

  function TrimStart(s: string): (r: string)
    ensures |r| <= |s| && r == s[|s| - |r|..] && (r != "" ==> !IsJsSpace(r[0]))
  {
    if s != [] && IsJsSpace(s[0]) then TrimStart(s[1..]) else s
  }

  function TrimEnd(s: string): (r: string)
    ensures |r| <= |s| && r == s[..|r|] && (r != "" ==> !IsJsSpace(r[|r| - 1]))
  {
    if s != [] && IsJsSpace(s[|s| - 1]) then TrimEnd(s[..|s| - 1]) else s
  }

  /** JavaScript's `s.trim()`. */
  function Trim(s: string): (r: string)
    ensures |r| <= |s|
    ensures r != "" ==> !IsJsSpace(r[0]) && !IsJsSpace(r[|r| - 1])
    ensures r == "" <==> forall i :: 0 <= i < |s| ==> IsJsSpace(s[i])
  {
    TrimEmptyIffSpace(s);
    TrimEnd(TrimStart(s))
  }

  lemma TrimEmptyIffSpace(s: string)
    ensures TrimEnd(TrimStart(s)) == "" <==> forall i :: 0 <= i < |s| ==> IsJsSpace(s[i])
  {
    var t := TrimStart(s);
    if t == "" {
      TrimStartAllSpace(s);
    } else {
      TrimEndKeepsHead(t);
      assert t[0] == s[|s| - |t|];
    }
  }

  lemma {:induction false} TrimEndKeepsHead(t: string)
    requires t != "" && !IsJsSpace(t[0])
    ensures TrimEnd(t) != ""
    decreases |t|
  {
    if |t| > 1 && IsJsSpace(t[|t| - 1]) {
      TrimEndKeepsHead(t[..|t| - 1]);
    }
  }

  lemma {:induction false} TrimStartAllSpace(s: string)
    requires TrimStart(s) == ""
    ensures forall i :: 0 <= i < |s| ==> IsJsSpace(s[i])
    decreases |s|
  {
    if s != [] {
      assert IsJsSpace(s[0]);
      TrimStartAllSpace(s[1..]);
      forall i | 1 <= i < |s| ensures IsJsSpace(s[i]) {
        assert s[i] == s[1..][i - 1];
      }
    }
  }

  lemma {:induction false} TrimEndAllSpace(s: string)
    requires TrimEnd(s) == ""
    ensures forall i :: 0 <= i < |s| ==> IsJsSpace(s[i])
    decreases |s|
  {
    if s != [] {
      assert IsJsSpace(s[|s| - 1]);
      TrimEndAllSpace(s[..|s| - 1]);
      forall i | 0 <= i < |s| - 1 ensures IsJsSpace(s[i]) {
        assert s[i] == s[..|s| - 1][i];
      }
    }
  }

  /** A string that neither starts nor ends with white space is its own trim. */
  lemma TrimKeepsUnspaced(s: string)
    requires s != "" && !IsJsSpace(s[0]) && !IsJsSpace(s[|s| - 1])
    ensures Trim(s) == s
  {
    assert TrimStart(s) == s;
  }

  /** ASCII lower-casing (Python's `str.lower` and JavaScript's
      `toLowerCase` agree on ASCII letters). */
  function LowerChar(c: char): char
  {
    if 'A' <= c <= 'Z' then (c as int + 32) as char else c
  }

  function Lower(s: string): (r: string)
    ensures |r| == |s| && forall i :: 0 <= i < |s| ==> r[i] == LowerChar(s[i])
  {
    if s == [] then [] else [LowerChar(s[0])] + Lower(s[1..])
  }

  /** JavaScript's `s.lastIndexOf(c)`: the last index of `c`, or -1. */
  function LastIndexOf(s: string, c: char): (i: int)
    ensures -1 <= i < |s|
    ensures i >= 0 ==> s[i] == c
    ensures forall k :: i < k < |s| ==> s[k] != c
  {
    if s == [] then -1
    else if s[|s| - 1] == c then |s| - 1
    else LastIndexOf(s[..|s| - 1], c)
  }

  lemma {:induction false} LastIndexOfAbsent(s: string, c: char)
    ensures LastIndexOf(s, c) < 0 <==> c !in s
    decreases |s|
  {
    if s != [] && s[|s| - 1] != c {
      LastIndexOfAbsent(s[..|s| - 1], c);
      assert s == s[..|s| - 1] + [s[|s| - 1]];
    }
  }

  /** JavaScript's `s.substring(start)` for `start <= |s|`: a negative start
      counts as 0. */
  function SubstringFrom(s: string, start: int): (r: string)
    requires start <= |s|
    ensures r == if start < 0 then s else s[start..]
  {
    if start < 0 then s else s[start..]
  }

  /** JavaScript's `s.substring(0, end)` for `end <= |s|`: a negative end
      counts as 0. */
  function SubstringTo(s: string, end: int): (r: string)
    requires end <= |s|
    ensures r == if end < 0 then "" else s[..end]
  {
    if end < 0 then "" else s[..end]
  }

  predicate IsPrefix(p: string, s: string)
  {
    |p| <= |s| && s[..|p|] == p
  }

  /** `pat` occurs in `s` starting at index `j`. */
  predicate OccursAt(s: string, pat: string, j: int)
  {
    0 <= j && j + |pat| <= |s| && s[j..j + |pat|] == pat
  }

  /** `sub` occurs in `s` at some position. */
  predicate Contains(s: string, sub: string)
  {
    exists i | 0 <= i <= |s| :: OccursAt(s, sub, i)
  }

  lemma ContainsMiddle(a: string, b: string, c: string)
    ensures Contains(a + b + c, b)
  {
    var s := a + b + c;
    assert OccursAt(s, b, |a|);
  }

  /** Index of the first occurrence of `pat` in `s`, or -1. */
  function Find(s: string, pat: string): (i: int)
    requires pat != ""
    ensures i >= -1
    ensures i >= 0 ==> OccursAt(s, pat, i)
    ensures i >= 0 ==> forall j :: 0 <= j < i ==> !OccursAt(s, pat, j)
    ensures i == -1 <==> !Contains(s, pat)
    decreases |s|
  {
    if |s| < |pat| then
      assert forall k :: !OccursAt(s, pat, k);
      -1
    else if s[..|pat|] == pat then assert OccursAt(s, pat, 0); 0
    else
      var j := Find(s[1..], pat);
      assert forall k :: 1 <= k ==> (OccursAt(s, pat, k) <==> OccursAt(s[1..], pat, k - 1));
      assert !OccursAt(s, pat, 0);
      if j == -1 then -1 else j + 1
  }

  /** JavaScript's `s.replace(pat, rep)` with a string pattern: only the
      first occurrence is replaced. */
  function ReplaceFirst(s: string, pat: string, rep: string): (r: string)
    requires pat != ""
  {
    var i := Find(s, pat);
    if i < 0 then s else s[..i] + rep + s[i + |pat|..]
  }

  /** Python's `s.replace(pat, rep)`: every occurrence, scanning left to right. */
  function ReplaceAll(s: string, pat: string, rep: string): (r: string)
    requires pat != ""
    decreases |s|
  {
    var i := Find(s, pat);
    if i < 0 then s else s[..i] + rep + ReplaceAll(s[i + |pat|..], pat, rep)
  }

  /** Every occurrence of the character `c` removed (a regular-expression
      replace of one character class with ""). */
  function RemoveChars(s: string, cs: set<char>): (r: string)
    ensures forall i :: 0 <= i < |r| ==> r[i] !in cs
    ensures |r| <= |s|
  {
    if s == [] then []
    else if s[0] in cs then RemoveChars(s[1..], cs)
    else [s[0]] + RemoveChars(s[1..], cs)
  }

  lemma {:induction false} RemoveCharsAbsent(s: string, cs: set<char>)
    requires NoneOf(s, cs)
    ensures RemoveChars(s, cs) == s
    decreases |s|
  {
    if s != [] {
      assert s[0] !in cs;
      RemoveCharsAbsent(s[1..], cs);
    }
  }

  predicate IsDigit(c: char) { '0' <= c <= '9' }

  predicate AllDigits(s: string)
  {
    forall i :: 0 <= i < |s| ==> IsDigit(s[i])
  }

  function DigitValue(c: char): nat
    requires IsDigit(c)
  {
    c as int - '0' as int
  }

  /** The value of a non-empty run of decimal digits. */
  function DigitsValue(s: string): nat
    requires AllDigits(s)
  {
    if s == [] then 0 else DigitsValue(s[..|s| - 1]) * 10 + DigitValue(s[|s| - 1])
  }

  function DigitChar(d: nat): (c: char)
    requires d < 10
    ensures IsDigit(c) && DigitValue(c) == d
  {
    ('0' as int + d) as char
  }

  /** Decimal rendering of a natural number (Python's `str(n)`, JavaScript's
      template interpolation of a number). */
  function NatToString(n: nat): (s: string)
    ensures s != [] && AllDigits(s) && DigitsValue(s) == n
  {
    if n < 10 then [DigitChar(n)]
    else
      var r := NatToString(n / 10) + [DigitChar(n % 10)];
      assert r[..|r| - 1] == NatToString(n / 10);
      r
  }

  /** The characters Python's `str.isspace` accepts (`int()` ignores them
      around the digits). */
  predicate IsPySpace(c: char)
  {
    || ('\t' <= c <= '\r') || ('\U{001C}' <= c <= ' ') || c == '\U{0085}' || c == '\U{00A0}'
    || c == '\U{1680}' || ('\U{2000}' <= c <= '\U{200A}') || c == '\U{2028}' || c == '\U{2029}'
    || c == '\U{202F}' || c == '\U{205F}' || c == '\U{3000}'
  }

  function PyStripStart(s: string): (r: string)
    ensures |r| <= |s| && r == s[|s| - |r|..]
  {
    if s != [] && IsPySpace(s[0]) then PyStripStart(s[1..]) else s
  }

  function PyStripEnd(s: string): (r: string)
    ensures |r| <= |s| && r == s[..|r|]
  {
    if s != [] && IsPySpace(s[|s| - 1]) then PyStripEnd(s[..|s| - 1]) else s
  }

  /** The digits `int()` accepts after the sign: a digit, then digits each
      optionally preceded by one underscore. */
  predicate PyDigitRun(s: string)
  {
    && s != [] && IsDigit(s[0])
    && (|s| == 1 || PyDigitRun(s[1..]) || (|s| > 2 && s[1] == '_' && PyDigitRun(s[2..])))
  }

  predicate DigitsOrUnderscores(s: string)
  {
    forall i :: 0 <= i < |s| ==> IsDigit(s[i]) || s[i] == '_'
  }

  lemma {:induction false} RunChars(s: string)
    requires PyDigitRun(s)
    ensures DigitsOrUnderscores(s)
  {
    if |s| > 1 {
      if PyDigitRun(s[1..]) {
        RunChars(s[1..]);
        assert forall i :: 1 <= i < |s| ==> s[i] == s[1..][i - 1];
      } else {
        RunChars(s[2..]);
        assert forall i :: 2 <= i < |s| ==> s[i] == s[2..][i - 2];
      }
    }
  }

  /** The digits of `s` in order, the underscores dropped. */
  function WithoutUnderscores(s: string): (r: string)
    ensures |r| <= |s|
    ensures DigitsOrUnderscores(s) ==> AllDigits(r)
    ensures AllDigits(s) ==> r == s
  {
    if s == [] then []
    else
      assert DigitsOrUnderscores(s) ==> DigitsOrUnderscores(s[1..]);
      (if s[0] == '_' then [] else [s[0]]) + WithoutUnderscores(s[1..])
  }

  /** The value of a digit run: its digits read as a decimal number. */
  function RunValue(body: string): nat
    requires PyDigitRun(body)
  {
    RunChars(body);
    DigitsValue(WithoutUnderscores(body))
  }

  /** `int()` on text already stripped of white space: an optional sign,
      then a digit run. */
  function ParseSigned(t: string): Option<int>
  {
    var body := if t != "" && (t[0] == '-' || t[0] == '+') then t[1..] else t;
    if !PyDigitRun(body) then None
    else if t[0] == '-' then Some(-(RunValue(body) as int))
    else Some(RunValue(body) as int)
  }

  /** Python's `int(s)` on a string: optional surrounding white space, an
      optional sign, then decimal digits grouped by single underscores;
      `None` where Python raises `ValueError`. */
  function ParsePyInt(s: string): Option<int>
  {
    ParseSigned(PyStripEnd(PyStripStart(s)))
  }

  lemma {:induction false} WithoutUnderscoresConcat(x: string, y: string)
    ensures WithoutUnderscores(x + y) == WithoutUnderscores(x) + WithoutUnderscores(y)
  {
    if x == [] {
      assert x + y == y;
    } else {
      assert (x + y)[0] == x[0];
      assert (x + y)[1..] == x[1..] + y;
      WithoutUnderscoresConcat(x[1..], y);
    }
  }

  /** A string that starts and ends with a digit is read with no white
      space or sign to strip. */
  lemma ParsePyIntBare(s: string)
    requires s != [] && IsDigit(s[0]) && IsDigit(s[|s| - 1])
    ensures ParsePyInt(s) == if PyDigitRun(s) then Some(RunValue(s) as int) else None
  {
    assert !IsPySpace(s[0]);
    assert PyStripStart(s) == s;
    assert !IsPySpace(s[|s| - 1]);
    assert PyStripEnd(s) == s;
    UnsignedParse(s);
  }

  lemma UnsignedParse(t: string)
    requires t != [] && IsDigit(t[0])
    ensures ParseSigned(t) == if PyDigitRun(t) then Some(RunValue(t) as int) else None
  {
  }

  lemma {:induction false} DigitsRun(s: string)
    requires AllDigits(s) && s != []
    ensures PyDigitRun(s)
  {
    if |s| > 1 {
      DigitsRun(s[1..]);
    }
  }

  lemma {:induction false} GroupedRun(a: string, b: string)
    requires AllDigits(a) && AllDigits(b) && a != "" && b != ""
    ensures PyDigitRun(a + "_" + b)
  {
    var s := a + "_" + b;
    if |a| == 1 {
      assert s[2..] == b;
      DigitsRun(b);
    } else {
      assert s[1..] == a[1..] + "_" + b;
      GroupedRun(a[1..], b);
    }
  }

  lemma {:induction false} DoubledNotRun(a: string, b: string)
    requires AllDigits(a) && a != ""
    ensures !PyDigitRun(a + "__" + b)
  {
    var s := a + "__" + b;
    if |a| == 1 {
      assert s[1] == '_' && s[2] == '_';
    } else {
      assert s[1..] == a[1..] + "__" + b;
      DoubledNotRun(a[1..], b);
    }
  }

  /** Digits around one underscore are read as the digits alone. */
  lemma ParsePyIntGrouped(a: string, b: string)
    requires AllDigits(a) && AllDigits(b) && a != "" && b != ""
    ensures ParsePyInt(a + "_" + b) == Some(DigitsValue(a + b) as int)
  {
    var s := a + "_" + b;
    assert s[0] == a[0] && s[|s| - 1] == b[|b| - 1];
    GroupedRun(a, b);
    ParsePyIntBare(s);
    UnderscoreDropped(a, b);
  }

  lemma UnderscoreDropped(a: string, b: string)
    requires AllDigits(a) && AllDigits(b)
    ensures WithoutUnderscores(a + "_" + b) == a + b
  {
    var u := "_";
    assert WithoutUnderscores(u) == [] by {
      assert u[1..] == [];
    }
    WithoutUnderscoresConcat(a, u);
    WithoutUnderscoresConcat(a + u, b);
  }

  /** Two underscores in a row are refused. */
  lemma ParsePyIntDoubleUnderscore(a: string, b: string)
    requires AllDigits(a) && AllDigits(b) && a != "" && b != ""
    ensures ParsePyInt(a + "__" + b) == None
  {
    var s := a + "__" + b;
    DoubledNotRun(a, b);
    ParsePyIntBare(s);
  }

  /** A plain run of digits is read as its decimal value. */
  lemma ParsePyIntDigits(s: string)
    requires AllDigits(s) && s != ""
    ensures ParsePyInt(s) == Some(DigitsValue(s) as int)
  {
    DigitsRun(s);
    ParsePyIntBare(s);
  }
}
