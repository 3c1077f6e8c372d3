/** What the HTML renderer promises about the trees it walks: children are
    rendered in order and nothing is added between them, every container
    wraps its children in one fixed pair of tags, nesting yields balanced
    tags, the generic fallback agrees with the specialised nodes, and ruby
    annotations follow the group / per-character rule. */
module RenderProperties {
  import opened RubyBuiltins
  import opened Markdown

  /** `content.map(&:to_html)`: the renders of the children, in order. */
  function Renders(kids: seq<Node>): seq<string>
  {
    seq(|kids|, i requires 0 <= i < |kids| => ToHtml(kids[i]))
  }

  // ---------------------------------------------------------------------
  // Child lists

  /** No children render as nothing. */
  lemma ToHtmlSeqEmpty()
    ensures ToHtmlSeq([]) == ""
  {
  }

  /** A single child renders as itself. */
  lemma ToHtmlSeqSingleton(n: Node)
    ensures ToHtmlSeq([n]) == ToHtml(n)
  {
  }

  /** Rendering the children is mapping `to_html` over them and joining. */
  lemma {:induction false} ToHtmlSeqIsMapJoin(kids: seq<Node>)
    ensures ToHtmlSeq(kids) == Join(Renders(kids))
  {
    if kids != [] {
      assert Renders(kids)[1..] == Renders(kids[1..]);
      ToHtmlSeqIsMapJoin(kids[1..]);
    }
  }

  /** Rendering a child list distributes over concatenation of lists, so the
      renderer keeps the children's order and inserts nothing between them. */
  lemma {:induction false} ToHtmlSeqAppend(a: seq<Node>, b: seq<Node>)
    ensures ToHtmlSeq(a + b) == ToHtmlSeq(a) + ToHtmlSeq(b)
  {
    if a == [] {
      assert a + b == b;
    } else {
      assert (a + b)[1..] == a[1..] + b;
      ToHtmlSeqAppend(a[1..], b);
    }
  }

  /** The first child is rendered first, then the rest. */
  lemma ToHtmlSeqCons(n: Node, rest: seq<Node>)
    ensures ToHtmlSeq([n] + rest) == ToHtml(n) + ToHtmlSeq(rest)
  {
    ToHtmlSeqAppend([n], rest);
    ToHtmlSeqSingleton(n);
  }

  /** A page break anywhere in a child list leaves the HTML unchanged. */
  lemma NewPageInvisible(a: seq<Node>, b: seq<Node>)
    ensures ToHtmlSeq(a + [NewPage] + b) == ToHtmlSeq(a + b)
  {
    ToHtmlSeqAppend(a + [NewPage], b);
    ToHtmlSeqAppend(a, [NewPage]);
    ToHtmlSeqSingleton(NewPage);
    ToHtmlSeqAppend(a, b);
  }

  /** A plain node over `a + b` is the plain node over `a` followed by the
      plain node over `b`. */
  lemma PlainAppend(a: seq<Node>, b: seq<Node>)
    ensures ToHtml(Plain(a + b)) == ToHtml(Plain(a)) + ToHtml(Plain(b))
  {
    ToHtmlSeqAppend(a, b);
  }

  /** The plain nodes of each group, one per group. */
  function Plains(groups: seq<seq<Node>>): seq<Node>
  {
    seq(|groups|, i requires 0 <= i < |groups| => Plain(groups[i]))
  }

  function Flatten(groups: seq<seq<Node>>): seq<Node>
  {
    if groups == [] then [] else groups[0] + Flatten(groups[1..])
  }

  /** Plain nodes are transparent: a plain node whose children are plain
      nodes renders as one plain node over all their children. */
  lemma {:induction false} PlainFlatten(groups: seq<seq<Node>>)
    ensures ToHtml(Plain(Plains(groups))) == ToHtml(Plain(Flatten(groups)))
  {
    if groups != [] {
      assert Plains(groups) == [Plain(groups[0])] + Plains(groups[1..]);
      ToHtmlSeqCons(Plain(groups[0]), Plains(groups[1..]));
      PlainFlatten(groups[1..]);
      ToHtmlSeqAppend(groups[0], Flatten(groups[1..]));
    }
  }

  /** Two children of a paragraph, in order. */
  lemma ParaPair(a: Node, b: Node)
    ensures ToHtml(Para([a, b])) == "<p>" + ToHtml(a) + ToHtml(b) + "</p>\n"
  {
    assert [a, b] == [a] + [b];
    ToHtmlSeqAppend([a], [b]);
    ToHtmlSeqSingleton(a);
    ToHtmlSeqSingleton(b);
  }

  // ---------------------------------------------------------------------
  // Container templates

  /** The node classes that wrap a list of children. */
  datatype Kind =
    | HeadlineKind(level: nat)
    | BlockQuoteKind
    | BulletListKind
    | BulletListItemKind
    | PlainKind
    | ParaKind
    | VerbatimKind
    | InlineKind(name: string)

  function Wrap(k: Kind, kids: seq<Node>): Node
  {
    match k
    case HeadlineKind(level) => Headline(level, kids)
    case BlockQuoteKind => BlockQuote(kids)
    case BulletListKind => BulletList(kids)
    case BulletListItemKind => BulletListItem(kids)
    case PlainKind => Plain(kids)
    case ParaKind => Para(kids)
    case VerbatimKind => Verbatim(kids)
    case InlineKind(name) => InlineElement(name, kids)
  }

  /** The markup a container of kind `k` puts before its children. */
  function Open(k: Kind): string
  {
    match k
    case HeadlineKind(level) => "<h" + NatToString(level) + ">"
    case BlockQuoteKind => "<blockquote>"
    case BulletListKind => "<ul>\n"
    case BulletListItemKind => "<li>"
    case PlainKind => ""
    case ParaKind => "<p>"
    case VerbatimKind => "<pre><code>"
    case InlineKind(name) => "<" + name + ">"
  }

  /** The markup a container of kind `k` puts after its children. */
  function Close(k: Kind): string
  {
    match k
    case HeadlineKind(level) => "</h" + NatToString(level) + ">\n"
    case BlockQuoteKind => "</blockquote>\n"
    case BulletListKind => "</ul>\n"
    case BulletListItemKind => "</li>\n"
    case PlainKind => ""
    case ParaKind => "</p>\n"
    case VerbatimKind => "</code></pre>\n"
    case InlineKind(name) => "</" + name + ">"
  }

  /** Block-level containers: every wrapping container but an inline one. */
  predicate IsBlock(k: Kind)
  {
    !k.PlainKind? && !k.InlineKind?
  }

  /** Every container renders as its opening markup, its children's renders
      in order, and its closing markup. */
  lemma ContainerTemplate(k: Kind, kids: seq<Node>)
    ensures ToHtml(Wrap(k, kids)) == Open(k) + ToHtmlSeq(kids) + Close(k)
  {
    match k
    case HeadlineKind(level) =>
    case BlockQuoteKind =>
    case BulletListKind =>
    case BulletListItemKind =>
    case PlainKind =>
    case ParaKind =>
    case VerbatimKind =>
    case InlineKind(name) =>
  }

  /** A container with one child wraps that child's render. */
  lemma ContainerSingleton(k: Kind, child: Node)
    ensures ToHtml(Wrap(k, [child])) == Open(k) + ToHtml(child) + Close(k)
  {
    ContainerTemplate(k, [child]);
    ToHtmlSeqSingleton(child);
  }

  /** Splitting a container's children splits its interior the same way. */
  lemma ContainerConcat(k: Kind, a: seq<Node>, b: seq<Node>)
    ensures ToHtml(Wrap(k, a + b)) == Open(k) + ToHtmlSeq(a) + ToHtmlSeq(b) + Close(k)
  {
    ContainerTemplate(k, a + b);
    ToHtmlSeqAppend(a, b);
  }

  /** An empty container renders its bare wrapper. */
  lemma EmptyContainer(k: Kind)
    ensures ToHtml(Wrap(k, [])) == Open(k) + Close(k)
  {
    ContainerTemplate(k, []);
    ToHtmlSeqEmpty();
  }

  /** An empty bullet list. */
  lemma EmptyBulletList()
    ensures ToHtml(BulletList([])) == "<ul>\n</ul>\n"
  {
    EmptyContainer(BulletListKind);
  }

  /** Block-level containers end their render with a newline; inline
      elements end with their closing tag and add no newline of their own. */
  lemma LineEndings(k: Kind, kids: seq<Node>)
    requires !k.PlainKind?
    ensures var r := ToHtml(Wrap(k, kids));
            |r| > 0 && (IsBlock(k) <==> r[|r| - 1] == '\n') && (k.InlineKind? ==> r[|r| - 1] == '>')
  {
    ContainerTemplate(k, kids);
    var r := ToHtml(Wrap(k, kids));
    assert r[|r| - 1] == Close(k)[|Close(k)| - 1];
  }

  /** The headline's tag number is the level's shortest decimal form, and
      it reads back as the level. */
  lemma HeadlineTag(level: nat, kids: seq<Node>)
    ensures ToHtml(Headline(level, kids)) ==
            "<h" + NatToString(level) + ">" + ToHtmlSeq(kids) + "</h" + NatToString(level) + ">\n"
    ensures DecimalValue(NatToString(level)) == level
  {
    NatToStringRoundTrip(level);
  }

  /** Levels one to nine give the familiar one-digit tags `<h1>` to `<h9>`. */
  lemma HeadlineOneDigit(level: nat, kids: seq<Node>)
    requires 1 <= level <= 9
    ensures ToHtml(Headline(level, kids)) ==
            "<h" + [DigitChar(level)] + ">" + ToHtmlSeq(kids) + "</h" + [DigitChar(level)] + ">\n"
  {
  }

  /** `k` copies of `s`, for stating the tags of nested containers. */
  function Repeat(s: string, k: nat): string
  {
    if k == 0 then "" else s + Repeat(s, k - 1)
  }

  lemma {:induction false} RepeatSnoc(s: string, k: nat)
    ensures Repeat(s, k + 1) == Repeat(s, k) + s
  {
    if k > 0 {
      RepeatSnoc(s, k - 1);
    }
  }

  /** `depth` containers of kind `k`, each the only child of the next, around `inner`. */
  function Nest(k: Kind, depth: nat, inner: Node): Node
  {
    if depth == 0 then inner else Wrap(k, [Nest(k, depth - 1, inner)])
  }

  /** Nesting gives `depth` opening tags, the inner render, then `depth`
      closing tags: the tags are balanced at every depth. */
  lemma {:induction false} NestedContainers(k: Kind, depth: nat, inner: Node)
    ensures ToHtml(Nest(k, depth, inner)) == Repeat(Open(k), depth) + ToHtml(inner) + Repeat(Close(k), depth)
  {
    if depth > 0 {
      NestedContainers(k, depth - 1, inner);
      NestUnfold(k, depth, inner);
      WrapRepeat(Open(k), Close(k), ToHtml(inner), ToHtml(Nest(k, depth - 1, inner)),
                 ToHtml(Nest(k, depth, inner)), depth - 1);
    }
  }

  /** One level of nesting wraps the level below. */
  lemma NestUnfold(k: Kind, depth: nat, inner: Node)
    requires depth > 0
    ensures ToHtml(Nest(k, depth, inner)) == Open(k) + ToHtml(Nest(k, depth - 1, inner)) + Close(k)
  {
    ContainerSingleton(k, Nest(k, depth - 1, inner));
  }

  /** Wrapping `depth` wrappers once more gives `depth + 1` wrappers. */
  lemma WrapRepeat(open: string, close: string, middle: string, below: string, above: string, depth: nat)
    requires below == Repeat(open, depth) + middle + Repeat(close, depth)
    requires above == open + below + close
    ensures above == Repeat(open, depth + 1) + middle + Repeat(close, depth + 1)
  {
    RepeatSnoc(close, depth);
  }

  /** Nested block quotes, the case of deeply quoted mail. */
  lemma NestedBlockQuotes(depth: nat, inner: Node)
    ensures ToHtml(Nest(BlockQuoteKind, depth, inner)) ==
            Repeat("<blockquote>", depth) + ToHtml(inner) + Repeat("</blockquote>\n", depth)
  {
    NestedContainers(BlockQuoteKind, depth, inner);
  }

  // ---------------------------------------------------------------------
  // Leaves and the generic fallback

  /** Text is copied as it is, without escaping. */
  lemma TextVerbatim(s: string)
    ensures ToHtml(Text(s)) == s
  {
  }

  /** Line breaks and rules are fixed void tags closed by a newline. */
  lemma BreakAndRule()
    ensures ToHtml(LineBreak) == "<br />\n"
    ensures ToHtml(HorizontalRule) == "<hr />\n"
  {
  }

  /** A vertical-in-horizontal run wraps its text, unescaped, in a `tcy` span. */
  lemma TatenakaYokoSpan(s: string)
    ensures ToHtml(TatenakaYoko(s)) == "<span class=\"tcy\">" + s + "</span>"
  {
  }

  /** A page break contributes nothing to the HTML. */
  lemma NewPageEmpty()
    ensures ToHtml(NewPage) == ""
  {
  }

  /** The base class's `to_html` agrees with the specialised nodes: an array
      renders like a plain node, a single node like itself, a scalar like a
      text node, and missing content as nothing. */
  lemma GenericFallback(c: Content)
    ensures c.NoContentAttr? || c.Absent? ==> ToHtml(Generic(c)) == ""
    ensures c.Single? ==> ToHtml(Generic(c)) == ToHtml(c.node)
    ensures c.Many? ==> ToHtml(Generic(c)) == ToHtml(Plain(c.nodes))
    ensures c.Scalar? ==> ToHtml(Generic(c)) == ToHtml(Text(c.shown))
  {
  }

  /** A generic node over an array renders the array's halves one after the
      other. */
  lemma GenericManyOrder(a: seq<Node>, b: seq<Node>)
    ensures ToHtml(Generic(Many(a + b))) == ToHtml(Generic(Many(a))) + ToHtml(Generic(Many(b)))
  {
    ToHtmlSeqAppend(a, b);
  }

  // ---------------------------------------------------------------------
  // Ruby annotations

  /** Helper for the ruby lemmas below: one unfolding of `ToHtml` on a
      ruby node, which keeps their proofs small. */
  lemma RubiDispatch(parent: string, rubistr: seq<string>)
    ensures ToHtml(Rubi(parent, rubistr)) == RubiToHtml(parent, rubistr)
  {
  }

  /** Group mode: one `<rt>` holds all the readings, after the whole parent. */
  lemma RubiGroupMode(parent: string, rubistr: seq<string>)
    requires |parent| != |rubistr|
    ensures ToHtml(Rubi(parent, rubistr)) == "<ruby>" + parent + "<rt>" + Join(rubistr) + "</rt></ruby>"
  {
    RubiDispatch(parent, rubistr);
    assert RubiToHtml(parent, rubistr) == "<ruby>" + parent + "<rt>" + Join(rubistr) + "</rt></ruby>";
  }

  /** The per-character cells: each character followed by its own reading. */
  function PerCharCells(parent: string, rubistr: seq<string>): seq<string>
    requires |parent| == |rubistr|
  {
    seq(|parent|, i requires 0 <= i < |parent| => [parent[i]] + "<rt>" + rubistr[i] + "</rt>")
  }

  /** The cells of the zipped pairs are the per-character cells. */
  lemma {:induction false} ZippedCells(parent: string, rubistr: seq<string>)
    requires |parent| == |rubistr|
    ensures RubiCells(Zip(SplitChars(parent), rubistr)) == Join(PerCharCells(parent, rubistr))
  {
    if parent != [] {
      var split := SplitChars(parent);
      assert split[0] == [parent[0]] && split[1..] == SplitChars(parent[1..]);
      assert PerCharCells(parent, rubistr)[1..] == PerCharCells(parent[1..], rubistr[1..]);
      ZippedCells(parent[1..], rubistr[1..]);
    }
  }

  /** Per-character mode: character `i` of the parent gets reading `i`; as the
      counts match, no reading is dropped and none is padded with `nil`. */
  lemma RubiPerCharacter(parent: string, rubistr: seq<string>)
    requires |parent| == |rubistr|
    ensures ToHtml(Rubi(parent, rubistr)) == "<ruby>" + Join(PerCharCells(parent, rubistr)) + "</ruby>"
  {
    RubiDispatch(parent, rubistr);
    ZippedCells(parent, rubistr);
  }

  /** In per-character mode the markup adds thirteen characters for the
      `<ruby>` pair and ten per annotated character (the character, `<rt>`
      and `</rt>`) to the readings, which all appear in full. */
  lemma RubiPerCharacterLength(parent: string, rubistr: seq<string>)
    requires |parent| == |rubistr|
    ensures |ToHtml(Rubi(parent, rubistr))| == 13 + 10 * |parent| + TotalLength(rubistr)
  {
    RubiPerCharacter(parent, rubistr);
    JoinLength(PerCharCells(parent, rubistr));
    CellsLength(parent, rubistr);
  }

  lemma {:induction false} CellsLength(parent: string, rubistr: seq<string>)
    requires |parent| == |rubistr|
    ensures TotalLength(PerCharCells(parent, rubistr)) == 10 * |parent| + TotalLength(rubistr)
  {
    if parent != [] {
      assert PerCharCells(parent, rubistr)[1..] == PerCharCells(parent[1..], rubistr[1..]);
      CellsLength(parent[1..], rubistr[1..]);
    }
  }

  /** The tie-break: a one-character parent with one reading takes the
      per-character path, and its markup coincides with the group template. */
  lemma RubiSingleCharacter(c: char, reading: string)
    ensures !IsGroupRubi([c], [reading])
    ensures ToHtml(Rubi([c], [reading])) == "<ruby>" + [c] + "<rt>" + Join([reading]) + "</rt></ruby>"
  {
    RubiPerCharacter([c], [reading]);
  }

  /** Nothing rejects an empty parent: with no readings it takes the
      per-character path and yields an empty ruby element, and with readings
      it takes the group path. */
  lemma RubiEmptyParent(rubistr: seq<string>)
    ensures rubistr == [] ==> ToHtml(Rubi("", rubistr)) == "<ruby></ruby>"
    ensures rubistr != [] ==> ToHtml(Rubi("", rubistr)) == "<ruby><rt>" + Join(rubistr) + "</rt></ruby>"
  {
    if rubistr == [] {
      RubiPerCharacter("", []);
      assert PerCharCells("", []) == [];
    } else {
      RubiGroupMode("", rubistr);
    }
  }

  /** `{友|とも|だち}`: one character with two readings takes the group path. */
  lemma RubiGroupExample()
    ensures ToHtml(Rubi("友", ["とも", "だち"])) == "<ruby>友<rt>ともだち</rt></ruby>"
  {
    RubiGroupMode("友", ["とも", "だち"]);
    assert Join(["とも", "だち"]) == "ともだち";
  }

  /** Two characters with two readings: one cell per character, in order;
      `{友達|とも|だち}` thus gives `<ruby>友<rt>とも</rt>達<rt>だち</rt></ruby>`. */
  lemma RubiTwoCharacters(c0: char, c1: char, r0: string, r1: string)
    ensures ToHtml(Rubi([c0, c1], [r0, r1])) ==
            "<ruby>" + [c0] + "<rt>" + r0 + "</rt>" + [c1] + "<rt>" + r1 + "</rt>" + "</ruby>"
  {
    RubiPerCharacter([c0, c1], [r0, r1]);
    var cells := PerCharCells([c0, c1], [r0, r1]);
    assert cells == [[c0] + "<rt>" + r0 + "</rt>"] + [[c1] + "<rt>" + r1 + "</rt>"];
    JoinAppend([cells[0]], [cells[1]]);
  }

  /** An inline element wraps its children in the named tag and nothing else. */
  lemma InlineExample()
    ensures ToHtml(InlineElement("em", [Text("hi")])) == "<em>hi</em>"
  {
    ToHtmlSeqSingleton(Text("hi"));
  }
}
