/** `formatLexicalToHtml`: the serialiser that turns the JSON state of the Lexical
    rich-text editor into HTML. Every node kind has its own template; text nodes map
    their format bits to CSS classes and element nodes render their children in
    order.

    The serialiser passes children to `processNode` in two ways. Paragraphs,
    headings, links and unknown nodes pass their own alignment class explicitly.
    List items, quotes and the root use `children.map(processNode)`. `Array.map`
    calls its callback with the element AND ITS INDEX, so there the index lands in
    the `parentAlignment` parameter. The second child of the root then renders with
    the class "1", an image at index 2 gets " mx-auto", and so on. The model keeps
    both readings apart by a `Mapping` parameter: `AsWritten` passes the index, as
    the code does, and `Intended` passes no alignment, as the call evidently means.
    `FormatLexicalToHtml` is the intended serialiser and
    `FormatLexicalToHtmlAsWritten` the one the code computes. */
module LexicalHtml {
  import opened Common

  /** The `format` field of a node: a number on text nodes (a bit set), a string
      such as "center" on element nodes. An absent format behaves as the empty
      string: it is neither "center" nor "right" and its bits are 0. */
  datatype Format = Bits(n: int) | Named(name: string)

  /** The JSON `type` field of a node: the seven types the serialiser has a template
      for, and any other type by its name. */
  datatype Kind = ImageNode | ListNode | QuoteNode | ParagraphNode | HeadingNode | TextNode | LinkNode
                | OtherNode(typeName: string)

  /** A node of the editor state. `kind` is the JSON `type` field. The string fields
      hold what template interpolation prints for them; `tag`, `listType` and
      `altText` are "" when absent, `url` is None when absent. `hasChildren` says
      whether the node has a `children` array at all. */
  datatype Node = Node(kind: Kind, format: Format, text: string, tag: string, listType: string,
                       url: Option<string>, src: string, altText: string, width: string, height: string,
                       hasChildren: bool, children: seq<Node>)

  /** Which argument `children.map(processNode)` gives as parent alignment. */
  datatype Mapping = AsWritten | Intended

  /** Kinds whose template reads `children` unconditionally. */
  predicate NeedsChildren(kind: Kind) {
    kind == ParagraphNode || kind == HeadingNode || kind == LinkNode || kind == QuoteNode || kind == ListNode
  }

  /** What the serialiser demands of its input: every paragraph, heading, link,
      quote and list has a `children` array, and so does every item of a list.
      Without one, `node.children.map` throws a TypeError. */
  predicate WellFormed(node: Node)
    decreases node
  {
    && (NeedsChildren(node.kind) ==> node.hasChildren)
    && (node.kind == ListNode ==> forall i :: 0 <= i < |node.children| ==> node.children[i].hasChildren)
    && forall i :: 0 <= i < |node.children| ==> WellFormed(node.children[i])
  }

  predicate AllWellFormed(nodes: seq<Node>) {
    forall i :: 0 <= i < |nodes| ==> WellFormed(nodes[i])
  }

  // ---------------------------------------------------------------------------
  // Text nodes
  // ---------------------------------------------------------------------------

  /** Bit b of an integer in two's complement, as `n & 2^b` sees it after
      `ToInt32`. Division by 2 rounds down here, so negative numbers have their high
      bits set. */
  predicate Bit(n: int, b: nat)
    decreases b
  {
    if b == 0 then n % 2 == 1 else Bit(n / 2, b - 1)
  }

  /** `ToInt32` of a number, as far as its low bits go: NaN and infinities give 0 and
      a finite value is truncated toward zero. */
  function TruncateToInt(x: JsNumber): int {
    match x
    case NaN => 0
    case Infinite(_) => 0
    case Finite(v) => if v >= 0.0 then v.Floor else -((-v).Floor)
  }

  /** The integer that `node.format & k` works on: the number itself, or the string
      converted by `Number`. */
  function FormatInt(f: Format): int {
    match f
    case Bits(n) => n
    case Named(s) => TruncateToInt(StringToNumber(s))
  }

  /** The classes of `formatMap` whose bit is set, in key order 1, 2, 4, 8. */
  function FormatClasses(f: Format): (classes: seq<string>)
    ensures "font-bold" in classes <==> Bit(FormatInt(f), 0)
    ensures "italic" in classes <==> Bit(FormatInt(f), 1)
    ensures "line-through" in classes <==> Bit(FormatInt(f), 2)
    ensures "underline" in classes <==> Bit(FormatInt(f), 3)
    ensures |classes| <= 4
    ensures forall i, j :: 0 <= i < j < |classes| ==> classes[i] != classes[j]
  {
    var n := FormatInt(f);
    (if Bit(n, 0) then ["font-bold"] else [])
    + (if Bit(n, 1) then ["italic"] else [])
    + (if Bit(n, 2) then ["line-through"] else [])
    + (if Bit(n, 3) then ["underline"] else [])
  }

  /** Only the four lowest bits of a format matter: adding a multiple of 16 changes
      no class. */
  lemma FormatIgnoresHighBits(n: int, k: int)
    ensures FormatClasses(Bits(n + 16 * k)) == FormatClasses(Bits(n))
  {
    assert Scale(8 * k, 1) == 16 * k;
    assert Scale(4 * k, 1) == 8 * k;
    assert Scale(4 * k, 2) == 16 * k;
    assert Scale(2 * k, 1) == 4 * k;
    assert Scale(2 * k, 2) == 8 * k;
    assert Scale(2 * k, 3) == 16 * k;
    assert Scale(k, 1) == 2 * k;
    assert Scale(k, 2) == 4 * k;
    assert Scale(k, 3) == 8 * k;
    assert Scale(k, 4) == 16 * k;
    LowBitUnchanged(n, 8 * k, 0);
    LowBitUnchanged(n, 4 * k, 1);
    LowBitUnchanged(n, 2 * k, 2);
    LowBitUnchanged(n, k, 3);
  }

  /** Adding a multiple of 2^(b+1) leaves bit b alone. */
  lemma {:induction false} LowBitUnchanged(n: int, k: int, b: nat)
    requires b < 4
    ensures Bit(n + Scale(k, b + 1), b) == Bit(n, b)
    decreases b
  {
    if b > 0 {
      assert (n + Scale(k, b + 1)) / 2 == n / 2 + Scale(k, b);
      LowBitUnchanged(n / 2, k, b - 1);
    }
  }

  /** k * 2^b. */
  function Scale(k: int, b: nat): int {
    if b == 0 then k else 2 * Scale(k, b - 1)
  }

  /** A format of -1 (all bits set in two's complement) turns on all four classes. */
  lemma AllBitsAllClasses()
    ensures FormatClasses(Bits(-1)) == ["font-bold", "italic", "line-through", "underline"]
  {
    assert Bit(-1, 3);
  }

  /** `processText`: no text gives ""; text without format bits is returned as it
      is; otherwise it is wrapped in a span carrying the classes joined by spaces
      (`new Set` removes nothing, the classes being distinct). */
  function ProcessText(node: Node): (html: string)
    ensures node.text == "" ==> html == ""
    ensures node.text != "" && FormatClasses(node.format) == [] ==> html == node.text
    ensures node.text != "" && FormatClasses(node.format) != [] ==>
              html == Element("span", Join(FormatClasses(node.format), " "), node.text)
  {
    if node.text == "" then ""
    else
      var classes := FormatClasses(node.format);
      if |classes| > 0 then Element("span", Join(classes, " "), node.text)
      else node.text
  }

  // ---------------------------------------------------------------------------
  // Element nodes
  // ---------------------------------------------------------------------------

  const LinkClasses := "text-blue-600 dark:text-blue-400 underline cursor-pointer hover:text-blue-800 dark:hover:text-blue-300"

  const QuoteClasses := "relative border-l-4 border-gray-400 dark:border-gray-600 pl-5 pr-4 py-3 italic text-gray-700 dark:text-gray-300 text-base font-medium my-3 bg-gradient-to-r from-yellow-50 via-yellow-100 to-yellow-50 dark:bg-gray-900 rounded-md shadow-sm before:absolute before:-top-1 before:left-0 before:text-4xl before:text-gray-400 dark:before:text-gray-500 before:font-serif before:content-['\U{E2}\U{20AC}\U{153}']"

  const Nbsp := "&nbsp;"

  /** `<tag class="classes">inner</tag>`. */
  function Element(tag: string, classes: string, inner: string): (html: string)
    ensures |html| > 0 && html[0] == '<'
  {
    "<" + tag + " class=\"" + classes + "\">" + inner + "</" + tag + ">"
  }

  /** An element starts with its opening tag and ends with its closing tag. */
  lemma ElementShape(tag: string, classes: string, inner: string)
    ensures StartsWith(Element(tag, classes, inner), "<" + tag + " class=\"")
    ensures EndsWith(Element(tag, classes, inner), "</" + tag + ">")
  {
    var head := "<" + tag + " class=\"";
    var tail := "</" + tag + ">";
    var html := Element(tag, classes, inner);
    assert html == head + (classes + "\">" + inner) + tail;
    assert html[..|head|] == head;
    assert html[|html| - |tail|..] == tail;
  }

  predicate EndsWith(s: string, suffix: string) {
    |suffix| <= |s| && s[|s| - |suffix|..] == suffix
  }

  /** The alignment class of a node: its own "center", else the parent's. */
  function Alignment(node: Node, parentAlignment: string): (a: string)
    ensures a == "text-center" || a == parentAlignment
    ensures a != parentAlignment ==> node.format == Named("center")
    ensures node.format == Named("center") ==> a == "text-center"
  {
    if node.format == Named("center") then "text-center" else parentAlignment
  }

  /** The parent alignment that `children.map(processNode)` gives the child at an
      index: the index itself as written (index 0 is falsy and prints as nothing
      after `|| ""`), nothing as intended. */
  function MappedArgument(mode: Mapping, index: nat): (a: string)
    ensures mode == Intended || index == 0 ==> a == ""
    ensures mode == AsWritten && index > 0 ==> a == NatToString(index) && a != ""
  {
    if mode == Intended || index == 0 then ""
    else NatToString(index)
  }

  /** The `href` of a link: the url when it starts with "http", the url behind
      "https://" otherwise. An absent url prints as "undefined". */
  function LinkHref(url: Option<string>): (href: string)
    ensures StartsWith(href, "http")
    ensures url.Some? && StartsWith(url.value, "http") ==> href == url.value
    ensures url.Some? && !StartsWith(url.value, "http") ==> href == "https://" + url.value
  {
    match url
    case Some(u) => if StartsWith(u, "http") then u else "https://" + u
    case None => "https://undefined"
  }

  function ImageHtml(node: Node, alignment: string): (html: string)
    ensures |html| > 0 && html[0] == '<'
  {
    var imgClass := "rounded max-w-full h-auto" + (if alignment != "" then " mx-auto" else "");
    "<figure class=\"mb-2\"><img src=\"" + node.src + "\" alt=\"" + (if node.altText != "" then node.altText else "Image")
    + "\" width=\"" + node.width + "\" height=\"" + node.height + "\" class=\"" + imgClass + "\"></figure>"
  }

  /** `ol` for a numbered list, `ul` for any other. */
  function ListTag(listType: string): string {
    if listType == "number" then "ol" else "ul"
  }

  function ListClass(listType: string): string {
    if listType == "number" then "list-decimal list-inside mb-2" else "list-disc list-inside mb-2"
  }

  /** A quote's alignment: its own format only, left by default. */
  function QuoteAlignment(f: Format): string {
    if f == Named("center") then "text-center" else if f == Named("right") then "text-right" else "text-left"
  }

  /** A paragraph of text. */
  function Paragraph(alignment: string, inner: string): string {
    Element("p", "mb-2 " + alignment, inner)
  }

  /** The empty-paragraph placeholder. */
  function EmptyParagraph(alignment: string): string {
    Paragraph(alignment, Nbsp)
  }

  /** `processNode(node, parentAlignment)`: the template of the node's kind. */
  function ProcessNode(mode: Mapping, node: Node, parentAlignment: string): (html: string)
    ensures !node.kind.TextNode? && !node.kind.OtherNode? ==> |html| > 0 && html[0] == '<'
    decreases node, 2
  {
    var alignment := Alignment(node, parentAlignment);
    match node.kind
    case ImageNode => ImageHtml(node, alignment)
    case ListNode => ListHtml(mode, node)
    case QuoteNode => QuoteHtml(mode, node)
    case ParagraphNode => ParagraphHtml(mode, node, alignment)
    case HeadingNode => HeadingHtml(mode, node, alignment)
    case TextNode => ProcessText(node)
    case LinkNode => LinkHtml(mode, node, alignment)
    case OtherNode(_) => OtherHtml(mode, node, alignment)
  }

  /** A list: `ol` or `ul`, centred by its own format only. */
  function ListHtml(mode: Mapping, node: Node): string
    decreases node, 1
  {
    var listAlignment := if node.format == Named("center") then "text-center" else "";
    Element(ListTag(node.listType), ListClass(node.listType) + " " + listAlignment, ListItems(mode, node.children, listAlignment))
  }

  /** A quote: its children through `map(processNode)`. */
  function QuoteHtml(mode: Mapping, node: Node): string
    decreases node, 1
  {
    Element("blockquote", QuoteClasses + " " + QuoteAlignment(node.format), MappedChildren(mode, node.children, 0))
  }

  /** A paragraph: the placeholder when its children render to nothing, its image
      when an image is its only child, else the children in a `p`. */
  function ParagraphHtml(mode: Mapping, node: Node, alignment: string): string
    decreases node, 1
  {
    var inner := Children(mode, node.children, alignment);
    if inner == "" then EmptyParagraph(alignment)
    else if |node.children| == 1 && node.children[0].kind == ImageNode then
      ProcessNode(mode, node.children[0], alignment)
    else Paragraph(alignment, inner)
  }

  /** A heading: its own tag, `h1` when it has none. */
  function HeadingHtml(mode: Mapping, node: Node, alignment: string): string
    decreases node, 1
  {
    var tag := if node.tag != "" then node.tag else "h1";
    Element(tag, "text-3xl font-bold mb-4 " + alignment, Children(mode, node.children, alignment))
  }

  /** A link to its url, completed to an absolute one. */
  function LinkHtml(mode: Mapping, node: Node, alignment: string): (html: string)
    ensures |html| > 0 && html[0] == '<'
    decreases node, 1
  {
    var inner := Children(mode, node.children, alignment);
    "<a href=\"" + LinkHref(node.url) + "\" rel=\"noreferrer\" class=\"" + LinkClasses + "\">" + inner + "</a>"
  }

  /** Any other node: its children, the placeholder when they render to nothing, and
      a non-breaking space when it has no children array. */
  function OtherHtml(mode: Mapping, node: Node, alignment: string): string
    decreases node, 1
  {
    if node.hasChildren then
      var inner := Children(mode, node.children, alignment);
      if inner == "" then EmptyParagraph(alignment) else inner
    else Nbsp
  }

  /** `children.map((child) => processNode(child, alignment)).join("")`. */
  function Children(mode: Mapping, children: seq<Node>, alignment: string): string
    decreases children, 1
  {
    Concat(Rendered(mode, children, alignment))
  }

  /** `children.map((child) => processNode(child, alignment))`. */
  function Rendered(mode: Mapping, children: seq<Node>, alignment: string): seq<string>
    decreases children, 0
  {
    seq(|children|, i requires 0 <= i < |children| => ProcessNode(mode, children[i], alignment))
  }

  /** `children.map(processNode).join("")` for children standing at positions
      `index`, `index + 1`, ... of the array `map` walks (the position each one gets
      from `map`). */
  function MappedChildren(mode: Mapping, children: seq<Node>, index: nat): string
    decreases children, 1
  {
    Concat(MappedRendered(mode, children, index))
  }

  /** `children.map(processNode)`, the callback receiving each child's position. */
  function MappedRendered(mode: Mapping, children: seq<Node>, index: nat): seq<string>
    decreases children, 0
  {
    seq(|children|, i requires 0 <= i < |children| => ProcessNode(mode, children[i], MappedArgument(mode, index + i)))
  }

  /** The `<li>` elements of a list: each item takes its own "center" or else the
      list's alignment, and renders its children with `map(processNode)`. */
  function ListItems(mode: Mapping, items: seq<Node>, listAlignment: string): string
    decreases items, 0
  {
    Concat(seq(|items|, i requires 0 <= i < |items| =>
      Element("li", "ml-4 " + (if items[i].format == Named("center") then "text-center" else listAlignment),
              MappedChildren(mode, items[i].children, 0))))
  }

  /** `formatLexicalToHtml(json)` as the code computes it, on `json.root.children`. */
  function FormatLexicalToHtmlAsWritten(rootChildren: seq<Node>): (html: string)
    requires AllWellFormed(rootChildren)
    ensures html == Concat(seq(|rootChildren|, i requires 0 <= i < |rootChildren| =>
                         ProcessNode(AsWritten, rootChildren[i], if i == 0 then "" else NatToString(i))))
  {
    assert MappedRendered(AsWritten, rootChildren, 0)
        == seq(|rootChildren|, i requires 0 <= i < |rootChildren| =>
                 ProcessNode(AsWritten, rootChildren[i], if i == 0 then "" else NatToString(i)));
    MappedChildren(AsWritten, rootChildren, 0)
  }

  /** `formatLexicalToHtml(json)` with children mapped without an alignment. */
  function FormatLexicalToHtml(rootChildren: seq<Node>): (html: string)
    requires AllWellFormed(rootChildren)
    ensures html == Children(Intended, rootChildren, "")
  {
    IntendedIgnoresPosition(rootChildren, 0);
    MappedChildren(Intended, rootChildren, 0)
  }

  // ---------------------------------------------------------------------------
  // Properties
  // ---------------------------------------------------------------------------

  /** A text node renders as `processText` whatever its parent. */
  lemma TextNodeRenders(mode: Mapping, node: Node, parentAlignment: string)
    requires node.kind == TextNode
    ensures node.text == "" ==> ProcessNode(mode, node, parentAlignment) == ""
    ensures node.text != "" && FormatClasses(node.format) == [] ==> ProcessNode(mode, node, parentAlignment) == node.text
  {
  }

  /** A numbered list renders as `ol`, any other list as `ul`. */
  lemma ListElement(mode: Mapping, node: Node, parentAlignment: string)
    requires node.kind == ListNode
    ensures var html := ProcessNode(mode, node, parentAlignment);
            var tag := if node.listType == "number" then "ol" else "ul";
            StartsWith(html, "<" + tag + " class=\"") && EndsWith(html, "</" + tag + ">")
  {
    var listAlignment := if node.format == Named("center") then "text-center" else "";
    ElementShape(ListTag(node.listType), ListClass(node.listType) + " " + listAlignment,
                 ListItems(mode, node.children, listAlignment));
  }

  /** A paragraph whose children render to nothing renders as a paragraph holding a
      non-breaking space, with its alignment class. */
  lemma EmptyParagraphPlaceholder(mode: Mapping, node: Node, parentAlignment: string)
    requires node.kind == ParagraphNode
    requires Children(mode, node.children, Alignment(node, parentAlignment)) == ""
    ensures ProcessNode(mode, node, parentAlignment) == EmptyParagraph(Alignment(node, parentAlignment))
  {
  }

  /** A paragraph whose only child is an image renders as that image, with the
      paragraph's alignment. */
  lemma ImageOnlyParagraph(mode: Mapping, node: Node, parentAlignment: string)
    requires node.kind == ParagraphNode
    requires |node.children| == 1 && node.children[0].kind == ImageNode
    ensures ProcessNode(mode, node, parentAlignment)
            == ProcessNode(mode, node.children[0], Alignment(node, parentAlignment))
  {
    var alignment := Alignment(node, parentAlignment);
    var image := node.children[0];
    var html := ProcessNode(mode, image, alignment);
    assert html == ImageHtml(image, Alignment(image, alignment));
    assert html != "";
    assert Rendered(mode, node.children, alignment) == [html];
    ConcatPair(html, "");
    assert ProcessNode(mode, node, parentAlignment) == ParagraphHtml(mode, node, alignment);
  }

  /** A heading without a tag is an `h1`. */
  lemma HeadingDefaultsToH1(mode: Mapping, node: Node, parentAlignment: string)
    requires node.kind == HeadingNode && node.tag == ""
    ensures var html := ProcessNode(mode, node, parentAlignment);
            StartsWith(html, "<h1 class=\"") && EndsWith(html, "</h1>")
  {
    var alignment := Alignment(node, parentAlignment);
    ElementShape("h1", "text-3xl font-bold mb-4 " + alignment, Children(mode, node.children, alignment));
  }

  /** The children of a node render one after the other, in order. */
  lemma ChildrenAppend(mode: Mapping, a: seq<Node>, b: seq<Node>, alignment: string)
    ensures Children(mode, a + b, alignment) == Children(mode, a, alignment) + Children(mode, b, alignment)
  {
    var ra := Rendered(mode, a, alignment);
    var rb := Rendered(mode, b, alignment);
    assert Rendered(mode, a + b, alignment) == ra + rb;
    ConcatAppend(ra, rb);
  }

  lemma WellFormedAppend(a: seq<Node>, b: seq<Node>)
    requires AllWellFormed(a) && AllWellFormed(b)
    ensures AllWellFormed(a + b)
  {
    var ab := a + b;
    forall i | 0 <= i < |ab|
      ensures WellFormed(ab[i])
    {
      if i < |a| {
        assert ab[i] == a[i];
      } else {
        assert ab[i] == b[i - |a|];
      }
    }
  }

  /** As the code computes it, the output for the root's children is each child's
      output in order, but each child's output depends on its position. */
  lemma MappedChildrenAppend(mode: Mapping, a: seq<Node>, b: seq<Node>, index: nat)
    ensures MappedChildren(mode, a + b, index) == MappedChildren(mode, a, index) + MappedChildren(mode, b, index + |a|)
  {
    var ra := MappedRendered(mode, a, index);
    var rb := MappedRendered(mode, b, index + |a|);
    var rab := MappedRendered(mode, a + b, index);
    forall k | 0 <= k < |a + b| ensures rab[k] == (ra + rb)[k] {
      if k < |a| {
        assert (a + b)[k] == a[k];
      } else {
        assert (a + b)[k] == b[k - |a|] && index + k == (index + |a|) + (k - |a|);
      }
    }
    assert rab == ra + rb;
    ConcatAppend(ra, rb);
  }

  /** Without the index, the position plays no part: the rendering of the root's
      children is the rendering of each child on its own, concatenated in order. */
  lemma IntendedIgnoresPosition(children: seq<Node>, index: nat)
    ensures MappedChildren(Intended, children, index) == Children(Intended, children, "")
  {
    assert MappedRendered(Intended, children, index) == Rendered(Intended, children, "");
  }

  /** The intended serialiser distributes over concatenation of the root's
      children. */
  lemma FormatAppend(a: seq<Node>, b: seq<Node>)
    requires AllWellFormed(a) && AllWellFormed(b)
    ensures AllWellFormed(a + b)
    ensures FormatLexicalToHtml(a + b) == FormatLexicalToHtml(a) + FormatLexicalToHtml(b)
  {
    MappedChildrenAppend(Intended, a, b, 0);
    IntendedIgnoresPosition(b, |a|);
    IntendedIgnoresPosition(b, 0);
  }

  /** A paragraph with no children and no format. */
  const BlankParagraph := Node(ParagraphNode, Named(""), "", "", "", None, "", "", "", "", true, [])

  /** A blank paragraph renders as the placeholder with its parent's alignment. */
  lemma BlankParagraphRenders(mode: Mapping, parentAlignment: string)
    ensures WellFormed(BlankParagraph)
    ensures ProcessNode(mode, BlankParagraph, parentAlignment) == EmptyParagraph(parentAlignment)
  {
    assert Children(mode, [], parentAlignment) == "";
  }

  /** Two blank paragraphs at the root: the code renders the second one as
      `<p class="mb-2 1">&nbsp;</p>`, the class "1" being its index, where both
      should render as `<p class="mb-2 ">&nbsp;</p>`. */
  lemma IndexLeaksIntoClass()
    ensures WellFormed(BlankParagraph)
    ensures FormatLexicalToHtmlAsWritten([BlankParagraph, BlankParagraph]) == EmptyParagraph("") + EmptyParagraph("1")
    ensures FormatLexicalToHtml([BlankParagraph, BlankParagraph]) == EmptyParagraph("") + EmptyParagraph("")
    ensures FormatLexicalToHtmlAsWritten([BlankParagraph, BlankParagraph]) != FormatLexicalToHtml([BlankParagraph, BlankParagraph])
  {
    TwoBlankParagraphs(AsWritten);
    TwoBlankParagraphs(Intended);
    PlaceholderText("");
    PlaceholderText("1");
  }

  lemma PlaceholderText(alignment: string)
    ensures EmptyParagraph(alignment) == "<p class=\"mb-2 " + alignment + "\">&nbsp;</p>"
  {
  }

  lemma TwoBlankParagraphs(mode: Mapping)
    ensures WellFormed(BlankParagraph)
    ensures MappedChildren(mode, [BlankParagraph, BlankParagraph], 0)
            == EmptyParagraph("") + EmptyParagraph(MappedArgument(mode, 1))
    ensures MappedArgument(AsWritten, 1) == "1"
  {
    var roots := [BlankParagraph, BlankParagraph];
    var second := MappedArgument(mode, 1);
    BlankParagraphRenders(mode, "");
    BlankParagraphRenders(mode, second);
    assert NatToString(1) == "1";
    assert MappedRendered(mode, roots, 0) == [EmptyParagraph(""), EmptyParagraph(second)];
    ConcatPair(EmptyParagraph(""), EmptyParagraph(second));
  }
}
