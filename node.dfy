/** The node tree of a parsed document and its HTML rendering
    (`Xpub::Markdown::Node` and its subclasses). Each Ruby class becomes
    one constructor of `Node`; the base class's generic `to_html`, which
    inspects whatever `content` a node happens to carry, becomes the
    constructor `Generic` over an explicit `Content`. */
module Markdown {
  import opened RubyBuiltins

  /** What the base class's `to_html` may find under `content`. */
  datatype Content =
    | NoContentAttr           // the node does not respond to `content`
    | Absent                  // `content` is nil or false
    | Single(node: Node)      // `content` is a node
    | Many(nodes: seq<Node>)  // `content` is an array of nodes
    | Scalar(shown: string)   // any other value, given by its `to_s`

  datatype Node =
    | Generic(content: Content)
    | Headline(level: nat, children: seq<Node>)
    | Text(text: string)
    | BlockQuote(children: seq<Node>)
    | BulletList(children: seq<Node>)
    | BulletListItem(children: seq<Node>)
    | Plain(children: seq<Node>)
    | Para(children: seq<Node>)
    | Verbatim(children: seq<Node>)
    | InlineElement(name: string, children: seq<Node>)
    | LineBreak
    | HorizontalRule
    | Rubi(parent: string, rubistr: seq<string>)
    | TatenakaYoko(text: string)
    | NewPage

  /** `node.to_html`: each class's own `to_html`, the children of a
      container rendered first (`children = content.map(&:to_html).join`)
      and then put into that class's template. */
  function ToHtml(n: Node): string
    decreases n
  {
    match n
    case Generic(c) => ContentToHtml(c)
    case Headline(level, kids) => HeadlineHtml(level, ToHtmlSeq(kids))
    case Text(s) => s
    case BlockQuote(kids) => BlockQuoteHtml(ToHtmlSeq(kids))
    case BulletList(kids) => BulletListHtml(ToHtmlSeq(kids))
    case BulletListItem(kids) => BulletListItemHtml(ToHtmlSeq(kids))
    case Plain(kids) => ToHtmlSeq(kids)
    case Para(kids) => ParaHtml(ToHtmlSeq(kids))
    case Verbatim(kids) => VerbatimHtml(ToHtmlSeq(kids))
    case InlineElement(name, kids) => InlineElementHtml(name, ToHtmlSeq(kids))
    case LineBreak => LineBreakHtml
    case HorizontalRule => HorizontalRuleHtml
    case Rubi(parent, rubistr) => RubiToHtml(parent, rubistr)
    case TatenakaYoko(s) => TatenakaYokoHtml(s)
    case NewPage => ""
  }

  // The templates of the classes, each given its rendered children.

  function HeadlineHtml(level: nat, children: string): string
  {
    "<h" + NatToString(level) + ">" + children + ("</h" + NatToString(level) + ">\n")
  }

  function BlockQuoteHtml(children: string): string
  {
    "<blockquote>" + children + "</blockquote>\n"
  }

  function BulletListHtml(children: string): string
  {
    "<ul>\n" + children + "</ul>\n"
  }

  function BulletListItemHtml(children: string): string
  {
    "<li>" + children + "</li>\n"
  }

  function ParaHtml(children: string): string
  {
    "<p>" + children + "</p>\n"
  }

  function VerbatimHtml(children: string): string
  {
    "<pre><code>" + children + "</code></pre>\n"
  }

  function InlineElementHtml(name: string, children: string): string
  {
    "<" + name + ">" + children + ("</" + name + ">")
  }

  function TatenakaYokoHtml(s: string): string
  {
    "<span class=\"tcy\">" + s + "</span>"
  }

  const LineBreakHtml: string := "<br />\n"
  const HorizontalRuleHtml: string := "<hr />\n"

  /** The base class's `to_html`, by what `content` turns out to be. */
  function ContentToHtml(c: Content): string
    decreases c
  {
    match c
    case NoContentAttr => ""
    case Absent => ""
    case Single(node) => ToHtml(node)
    case Many(nodes) => ToHtmlSeq(nodes)
    case Scalar(shown) => shown
  }

  /** `content.map(&:to_html).join`: the children's renders, one after
      the other. */
  function ToHtmlSeq(kids: seq<Node>): string
    decreases kids
  {
    if kids == [] then "" else ToHtml(kids[0]) + ToHtmlSeq(kids[1..])
  }

  /** `group_rubi?`: one reading spans the whole parent string exactly when
      the parent's character count differs from the number of readings. */
  predicate IsGroupRubi(parent: string, rubistr: seq<string>)
  {
    |parent| != |rubistr|
  }

  /** The block `"#{c}<rt>#{r}</rt>"` applied to one pair of the zip. */
  function RubiCell(pair: (string, Option<string>)): string
  {
    pair.0 + "<rt>" + Interpolate(pair.1) + "</rt>"
  }

  /** `pairs.map { |c, r| "#{c}<rt>#{r}</rt>" }.join`. */
  function RubiCells(pairs: seq<(string, Option<string>)>): string
  {
    if pairs == [] then "" else RubiCell(pairs[0]) + RubiCells(pairs[1..])
  }

  /** `RubiNode#to_html`. */
  function RubiToHtml(parent: string, rubistr: seq<string>): string
  {
    if IsGroupRubi(parent, rubistr) then
      "<ruby>" + parent + "<rt>" + Join(rubistr) + "</rt></ruby>"
    else
      "<ruby>" + RubiCells(Zip(SplitChars(parent), rubistr)) + "</ruby>"
  }

  /** The placeholder every node answers to `to_tex`. */
  const NotImplemented: string := "no impl."

  /** `node.to_tex`: no subclass overrides it, so every node, whatever its
      payload, answers the placeholder and never any markup. */
  function ToTex(n: Node): (r: string)
    ensures r == NotImplemented
    ensures |r| == 8 && '<' !in r
  {
    NotImplemented
  }
}
