/** `parseHTMLToPDF` of frontend-next/src/utils/pdfGenerator.tsx: the
    editor's HTML, already parsed into nodes, turned into the react-pdf
    elements of the page. Each node becomes at most one element; text is
    trimmed, empty text and unknown empty elements vanish, and only the
    first top-level element that appears loses its top margin. */
module PdfGenerator {
  import opened Wrappers
  import opened Strings
  import opened PdfStyle

  /** A node of `body`: text, an element with its attributes and child nodes,
      or any other kind of node (a comment, say). */
  datatype HtmlNode =
    | TextNode(text: string)
    | ElementNode(tagName: string, attributes: map<string, string>, children: seq<HtmlNode>)
    | OtherNode

  /** The react-pdf elements `processNode` builds, without their React key:
      - `PdfText`: a `<Text>` holding a string;
      - `RawText`: a bare string child;
      - `View`: a `<View>` with its style-sheet entry (`""` for none), the
        inline style when it is applied, whether the first-element style
        `{ marginTop: 0 }` is applied, its `wrap` property when it has one,
        and its children;
      - `Bullet`: the `<Text>` of a list item, "• " followed by its children;
      - `Span`: a `<Text>` with a style-sheet entry and the inline style;
      - `PdfLink`: a link with its target. */
  datatype PdfNode =
    | PdfText(text: string)
    | RawText(raw: string)
    | View(sheet: string, inline: Option<Style>, firstMarginZero: bool, wrap: Option<bool>, children: seq<PdfNode>)
    | Bullet(items: seq<PdfNode>)
    | Span(sheet: string, spanStyle: Style, items: seq<PdfNode>)
    | PdfLink(src: string, items: seq<PdfNode>)

  /** The tags whose first occurrence at the top loses its top margin. */
  const FirstTags: set<string> := {"h1", "h2", "h3", "p", "ul", "ol"}

  /** The tags the `switch` names. */
  const KnownTags: set<string> := {"h1", "h2", "h3", "p", "ul", "ol", "li", "strong", "b", "em", "i", "a", "hr", "br"}

  /** `element.getAttribute(name) || ""`. */
  function AttributeOr(attributes: map<string, string>, name: string): string
  {
    if name in attributes then attributes[name] else ""
  }

  /** The `switch (tagName)` of `processNode` on the converted children. The
      second `ul` and `ol` cases are unreachable, the first ones matching
      first. */
  function Build(tag: string, attributes: map<string, string>, styleObj: Style, children: seq<PdfNode>, isFirst: bool)
    : Option<PdfNode>
  {
    var first := isFirst && tag in FirstTags;
    var body := if |children| > 0 then children else [PdfText(" ")];
    if tag == "h1" || tag == "h2" || tag == "h3" then Some(View(tag, Some(styleObj), first, Some(false), body))
    else if tag == "p" then Some(View(tag, Some(styleObj), first, Some(true), body))
    else if tag == "ul" || tag == "ol" then Some(View(tag, Some(styleObj), first, None, children))
    else if tag == "li" then Some(View(tag, None, false, Some(true), [Bullet(body)]))
    else if tag == "strong" || tag == "b" then
      Some(Span("strong", styleObj, if |children| > 0 then children else [RawText("")]))
    else if tag == "em" || tag == "i" then
      Some(Span("em", styleObj, if |children| > 0 then children else [RawText("")]))
    else if tag == "a" then
      var href := AttributeOr(attributes, "href");
      Some(PdfLink(if href != "" then href else "#", if |children| > 0 then children else [RawText(href)]))
    else if tag == "hr" then Some(View("hr", None, false, None, []))
    else if tag == "br" then Some(PdfText("\n"))
    else if |children| > 0 then Some(View("", Some(styleObj), false, Some(true), children))
    else None
  }

  /** `processNode(node, key, isFirst)`. */
  function Convert(node: HtmlNode, isFirst: bool): Option<PdfNode>
    decreases node, 2
  {
    match node
    case TextNode(t) => if Trim(t) != "" then Some(PdfText(Trim(t))) else None
    case OtherNode => None
    case ElementNode(tagName, attributes, kids) => ConvertElement(tagName, attributes, kids, isFirst)
  }

  /** An element: its children converted, then the `switch` on its
      lower-cased tag with its inline style. */
  function ConvertElement(tagName: string, attributes: map<string, string>, kids: seq<HtmlNode>, isFirst: bool)
    : Option<PdfNode>
    decreases kids, 1
  {
    Build(Lower(tagName), attributes, InlineStyleOf(AttributeOr(attributes, "style")), ConvertAll(kids), isFirst)
  }

  /** The children of an element: each converted (never as a first
      element), in order, the nulls left out. */
  function ConvertAll(kids: seq<HtmlNode>): seq<PdfNode>
    decreases kids, 0
  {
    if kids == [] then []
    else
      var last := Convert(kids[|kids| - 1], false);
      ConvertAll(kids[..|kids| - 1]) + (if last.Some? then [last.value] else [])
  }

  /** `processNode` as the source runs it: the children are processed one by
      one into a list before the element itself is built. */
  method ProcessNode(node: HtmlNode, isFirst: bool) returns (r: Option<PdfNode>)
    ensures r == Convert(node, isFirst)
    decreases node
  {
    match node {
      case TextNode(t) =>
        var text := Trim(t);
        if text != "" {
          return Some(PdfText(text));
        }
        return None;
      case OtherNode =>
        return None;
      case ElementNode(tagName, attributes, kids) =>
        var tag := Lower(tagName);
        var children: seq<PdfNode> := [];
        var i := 0;
        while i < |kids|
          invariant 0 <= i <= |kids|
          invariant children == ConvertAll(kids[..i])
        {
          var child := ProcessNode(kids[i], false);
          if child.Some? {
            children := children + [child.value];
          }
          assert kids[..i + 1][..i] == kids[..i];
          i := i + 1;
        }
        assert kids[..|kids|] == kids;
        var styleObj := ParseInlineStyle(AttributeOr(attributes, "style"));
        return Build(tag, attributes, styleObj, children, isFirst);
    }
  }

  /** The top-level loop from some node on: `isFirst` stays true until an
      element is produced. */
  function TopLevel(nodes: seq<HtmlNode>, isFirst: bool): seq<PdfNode>
  {
    if nodes == [] then []
    else
      var e := Convert(nodes[0], isFirst);
      if e.Some? then [e.value] + TopLevel(nodes[1..], false) else TopLevel(nodes[1..], isFirst)
  }

  /** `parseHTMLToPDF` on the child nodes of `body`. */
  method ParseHtmlToPdf(body: seq<HtmlNode>) returns (elements: seq<PdfNode>)
    ensures elements == TopLevel(body, true)
  {
    elements := [];
    var isFirstElement := true;
    var i := 0;
    while i < |body|
      invariant 0 <= i <= |body|
      invariant isFirstElement == (elements == [])
      invariant elements + TopLevel(body[i..], isFirstElement) == TopLevel(body, true)
    {
      var element := ProcessNode(body[i], isFirstElement);
      TopLevelStep(body[i..], isFirstElement);
      assert body[i..][0] == body[i] && body[i..][1..] == body[i + 1..];
      if element.Some? {
        assert elements + ([element.value] + TopLevel(body[i + 1..], false))
            == (elements + [element.value]) + TopLevel(body[i + 1..], false);
        elements := elements + [element.value];
        isFirstElement := false;
      }
      i := i + 1;
    }
  }

  lemma TopLevelStep(nodes: seq<HtmlNode>, isFirst: bool)
    requires nodes != []
    ensures var e := Convert(nodes[0], isFirst);
            TopLevel(nodes, isFirst)
            == if e.Some? then [e.value] + TopLevel(nodes[1..], false) else TopLevel(nodes[1..], isFirst)
  {
  }

  /** An element carrying `{ marginTop: 0 }`. */
  predicate Marked(e: PdfNode)
  {
    e.View? && e.firstMarginZero
  }

  /** The element with the first-element style taken off. */
  function Unmarked(e: PdfNode): PdfNode
  {
    if e.View? then e.(firstMarginZero := false) else e
  }

  /** A text node gives a `<Text>` exactly when it holds something other than
      white space, and then its text trimmed at both ends. */
  lemma TextTrimmed(t: string, isFirst: bool)
    ensures Convert(TextNode(t), isFirst).Some? <==> exists i :: 0 <= i < |t| && !IsJsSpace(t[i])
    ensures Convert(TextNode(t), isFirst).Some? ==>
              var s := Convert(TextNode(t), isFirst).value.text;
              s != "" && !IsJsSpace(s[0]) && !IsJsSpace(s[|s| - 1]) && s == Trim(t)
  {
    TextConverts(t, Trim(t), isFirst);
    TrimmedText(t, Trim(t));
  }

  lemma TextConverts(t: string, r: string, isFirst: bool)
    requires r == Trim(t)
    ensures Convert(TextNode(t), isFirst) == if r != "" then Some(PdfText(r)) else None
  {
  }

  lemma TrimmedText(t: string, r: string)
    requires r == Trim(t)
    ensures r != "" <==> exists i :: 0 <= i < |t| && !IsJsSpace(t[i])
    ensures r != "" ==> !IsJsSpace(r[0]) && !IsJsSpace(r[|r| - 1])
  {
  }

  /** An element whose tag the `switch` does not name is a plain wrapping
      `<View>` with its inline style when it has a child to show, and
      disappears otherwise. */
  lemma UnknownTag(tag: string, attributes: map<string, string>, styleObj: Style, children: seq<PdfNode>, isFirst: bool)
    requires tag !in KnownTags
    ensures Build(tag, attributes, styleObj, children, isFirst).Some? <==> children != []
    ensures children != [] ==>
              Build(tag, attributes, styleObj, children, isFirst) == Some(View("", Some(styleObj), false, Some(true), children))
  {
  }

  /** The same for a whole element node. */
  lemma UnknownElement(tagName: string, attributes: map<string, string>, kids: seq<HtmlNode>, isFirst: bool)
    requires Lower(tagName) !in KnownTags
    ensures Convert(ElementNode(tagName, attributes, kids), isFirst).Some? <==> ConvertAll(kids) != []
    ensures ConvertAll(kids) != [] ==>
              Convert(ElementNode(tagName, attributes, kids), isFirst)
              == Some(View("", Some(InlineStyleOf(AttributeOr(attributes, "style"))), false, Some(true), ConvertAll(kids)))
  {
    UnknownTag(Lower(tagName), attributes, InlineStyleOf(AttributeOr(attributes, "style")), ConvertAll(kids), isFirst);
  }

  /** Only a heading, a paragraph or a list built as the first element loses
      its top margin, and being first changes nothing else. */
  lemma FirstTagRule(tag: string, attributes: map<string, string>, styleObj: Style, children: seq<PdfNode>)
    ensures Build(tag, attributes, styleObj, children, true).Some? == Build(tag, attributes, styleObj, children, false).Some?
    ensures Build(tag, attributes, styleObj, children, true).Some? ==>
              Unmarked(Build(tag, attributes, styleObj, children, true).value)
              == Unmarked(Build(tag, attributes, styleObj, children, false).value)
    ensures Build(tag, attributes, styleObj, children, false).Some? ==>
              !Marked(Build(tag, attributes, styleObj, children, false).value)
    ensures (Build(tag, attributes, styleObj, children, true).Some? && Marked(Build(tag, attributes, styleObj, children, true).value))
            <==> tag in FirstTags
  {
  }

  /** The same for any node: text and other nodes are never marked. */
  lemma FirstElementRule(node: HtmlNode)
    ensures Convert(node, true).Some? == Convert(node, false).Some?
    ensures Convert(node, true).Some? ==> Unmarked(Convert(node, true).value) == Unmarked(Convert(node, false).value)
    ensures Convert(node, false).Some? ==> !Marked(Convert(node, false).value)
    ensures (Convert(node, true).Some? && Marked(Convert(node, true).value))
            <==> node.ElementNode? && Lower(node.tagName) in FirstTags
  {
    if node.ElementNode? {
      FirstTagRule(Lower(node.tagName), node.attributes, InlineStyleOf(AttributeOr(node.attributes, "style")),
                   ConvertAll(node.children));
    }
  }

  /** The conversion of one node as a list: empty for a null. */
  function Shown(node: HtmlNode): seq<PdfNode>
  {
    var e := Convert(node, false);
    if e.Some? then [e.value] else []
  }

  lemma {:induction false} ConvertAllCons(node: HtmlNode, kids: seq<HtmlNode>)
    ensures ConvertAll([node] + kids) == Shown(node) + ConvertAll(kids)
    decreases |kids|
  {
    if kids == [] {
      ConvertAllSnoc([], node);
      assert [node] + kids == [] + [node];
    } else {
      var init, last := kids[..|kids| - 1], kids[|kids| - 1];
      assert kids == init + [last];
      ConvertAllCons(node, init);
      ConsStep(node, init, last, kids);
    }
  }

  lemma ConsStep(node: HtmlNode, init: seq<HtmlNode>, last: HtmlNode, kids: seq<HtmlNode>)
    requires kids == init + [last]
    requires ConvertAll([node] + init) == Shown(node) + ConvertAll(init)
    ensures ConvertAll([node] + kids) == Shown(node) + ConvertAll(kids)
  {
    assert [node] + kids == ([node] + init) + [last];
    ConvertAllSnoc([node] + init, last);
    ConvertAllSnoc(init, last);
    ConcatAssoc(Shown(node), ConvertAll(init), Shown(last));
  }

  /** Converting one more child appends its conversion, if any. */
  lemma ConvertAllSnoc(kids: seq<HtmlNode>, node: HtmlNode)
    ensures ConvertAll(kids + [node]) == ConvertAll(kids) + Shown(node)
  {
    assert (kids + [node])[..|kids|] == kids;
  }

  /** Past the first element the top level is converted like the children of
      an element: in order, the nulls left out. */
  lemma {:induction false} TopLevelAfterFirst(nodes: seq<HtmlNode>)
    ensures TopLevel(nodes, false) == ConvertAll(nodes)
    decreases |nodes|
  {
    if nodes != [] {
      TopLevelAfterFirst(nodes[1..]);
      assert nodes == [nodes[0]] + nodes[1..];
      ConvertAllCons(nodes[0], nodes[1..]);
    }
  }

  /** The top level keeps every element in order, only its first element can
      carry the first-element style, and without it the elements are the
      plain conversions. */
  lemma {:induction false} TopLevelFirstOnly(nodes: seq<HtmlNode>, isFirst: bool)
    ensures |TopLevel(nodes, isFirst)| == |TopLevel(nodes, false)|
    ensures forall k :: 0 <= k < |TopLevel(nodes, isFirst)| ==>
              Unmarked(TopLevel(nodes, isFirst)[k]) == Unmarked(TopLevel(nodes, false)[k])
    ensures forall k :: 0 < k < |TopLevel(nodes, isFirst)| ==> !Marked(TopLevel(nodes, isFirst)[k])
    ensures !isFirst ==> forall k :: 0 <= k < |TopLevel(nodes, isFirst)| ==> !Marked(TopLevel(nodes, isFirst)[k])
    decreases |nodes|
  {
    if nodes != [] {
      FirstElementRule(nodes[0]);
      TopLevelFirstOnly(nodes[1..], isFirst);
      TopLevelFirstOnly(nodes[1..], false);
    }
  }
}
