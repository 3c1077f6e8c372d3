# xpub-markdown node renderer, modelled in Dafny

This project models the HTML renderer of xpub-markdown: the `to_html`
methods of `Xpub::Markdown::Node` and its subclasses, which turn a document
tree that a markdown-like parser has already built into an HTML fragment.
Each node class is one constructor of the datatype `Markdown.Node`
(headline, text, block quote, bullet list and item, plain, paragraph,
verbatim, inline element, line break, horizontal rule, ruby, tatenaka-yoko,
new page). The base class's generic `to_html`, which looks at whatever
`content` a node carries, is the constructor `Generic` over
`Markdown.Content` (no `content` attribute, nil/false, a node, an array of
nodes, or any other value given by its `to_s`). The Ruby type tests
(`respond_to?`, `is_a?`) become that exhaustive match.

Files:

- `ruby_builtins.dfy` — module `RubyBuiltins`: the Ruby library calls the
  renderer uses (`Array#join`, `String#split('')`, `Array#zip` with its
  `nil` padding, interpolation of `nil`, `Integer#to_s`) with their laws.
- `node.dfy` — module `Markdown`: the node datatype, `ToHtml` (the
  dispatch to each class's `to_html`), one template function per class
  that adds markup around its payload, `ContentToHtml` (the base class's
  fallback), `ToHtmlSeq` (`content.map(&:to_html).join`), the ruby decision `IsGroupRubi`,
  `RubiCells` and `RubiToHtml`, and `ToTex`.
- `render_properties.dfy` — module `RenderProperties`: lemmas about the
  renderer: order preservation, container templates (a table `Open`/`Close`
  per container `Kind`), balanced nesting, leaves, the generic fallback and
  ruby annotation in both modes.

Rendering is a total function of the tree: Dafny checks termination by
structural descent, and as a function it is deterministic and has no side
effects.

`RubiNode` checks neither that its parent string nor that its readings
are non-empty, and no node class is checked against a fixed set;
`RenderProperties.RubiEmptyParent` records what an empty parent renders
as.

## Model

| member | source | states |
|---|---|---|
| `Markdown.ToTex` | lib/xpub/markdown/node.rb:17-19 | every node, whatever its payload, answers the placeholder `no impl.`, which holds no markup |
| `RenderProperties.GenericFallback` | lib/xpub/markdown/node.rb:4-15 | the base `to_html`: no content attribute or nil content gives `""`, an array renders like a plain node over it, a single node like that node, a scalar like a text node of its string |
| `RenderProperties.GenericManyOrder` | lib/xpub/markdown/node.rb:6-7 | a generic node over an array `a + b` renders as the one over `a` followed by the one over `b` |
| `RenderProperties.ToHtmlSeqIsMapJoin` | lib/xpub/markdown/node.rb:7 | the child-by-child render equals mapping `to_html` over the children and joining the results |
| `RenderProperties.ToHtmlSeqEmpty` | lib/xpub/markdown/node.rb:7 | no children render as the empty string |
| `RenderProperties.ToHtmlSeqSingleton` | lib/xpub/markdown/node.rb:7 | mapping and joining a one-element child list gives that child's render |
| `RenderProperties.ToHtmlSeqAppend` | lib/xpub/markdown/node.rb:7 | rendering a child list distributes over list concatenation: order is kept and nothing is inserted between children |
| `RenderProperties.ToHtmlSeqCons` | lib/xpub/markdown/node.rb:7 | the first child's render comes first, then the rest's |
| `RenderProperties.PlainAppend` | lib/xpub/markdown/node.rb:64-68 | a plain node over `a + b` renders as the plain node over `a` followed by the one over `b` |
| `RenderProperties.PlainFlatten` | lib/xpub/markdown/node.rb:64-68 | a plain node of plain nodes renders as one plain node over all their children in order |
| `RenderProperties.ParaPair` | lib/xpub/markdown/node.rb:70-75 | a paragraph of `[a, b]` is `<p>`, `a`'s render, `b`'s render, `</p>` and a newline |
| `RenderProperties.ContainerTemplate` | lib/xpub/markdown/node.rb:30-88 | every container (headline, block quote, list, item, plain, paragraph, verbatim, inline) renders as its kind's opening markup, its children's renders in order, its kind's closing markup |
| `RenderProperties.ContainerConcat` | lib/xpub/markdown/node.rb:30-88 | splitting a container's children into `a + b` splits its interior into the renders of `a` then `b` |
| `RenderProperties.ContainerSingleton` | lib/xpub/markdown/node.rb:30-88 | a container with one child is its kind's opening markup, that child's render, its closing markup |
| `RenderProperties.EmptyContainer` | lib/xpub/markdown/node.rb:30-88 | a container with no children renders its bare opening and closing markup |
| `RenderProperties.EmptyBulletList` | lib/xpub/markdown/node.rb:50-55 | an empty bullet list renders as `<ul>\n</ul>\n` |
| `RenderProperties.LineEndings` | lib/xpub/markdown/node.rb:30-88 | a non-plain container's render ends in a newline exactly when it is block-level; an inline element's ends with `>` |
| `RenderProperties.HeadlineTag` | lib/xpub/markdown/node.rb:30-35 | a headline is wrapped in `<hN>`/`</hN>` where `N` is the level's shortest decimal form (`NatToString`), whose digits read back as the level |
| `RenderProperties.HeadlineOneDigit` | lib/xpub/markdown/node.rb:30-35 | levels 1 to 9 give the one-digit tags `<h1>`…`<h9>` |
| `RenderProperties.NestedContainers` | lib/xpub/markdown/node.rb:30-88 | `k` nested containers of one kind around a node give `k` opening tags, the inner render, `k` closing tags |
| `RenderProperties.NestedBlockQuotes` | lib/xpub/markdown/node.rb:43-47 | `k` nested block quotes give `k` times `<blockquote>`, the inner render, `k` times `</blockquote>\n` |
| `RenderProperties.TextVerbatim` | lib/xpub/markdown/node.rb:37-41 | a text node renders as its text, unescaped |
| `RenderProperties.BreakAndRule` | lib/xpub/markdown/node.rb:95-109 | line break and rule render as `<br />\n` and `<hr />\n` |
| `RenderProperties.TatenakaYokoSpan` | lib/xpub/markdown/node.rb:145-149 | a tatenaka-yoko run is its text inside `<span class="tcy">`…`</span>` |
| `RenderProperties.NewPageEmpty` | lib/xpub/markdown/node.rb:151-155 | a page break renders as the empty string |
| `RenderProperties.NewPageInvisible` | lib/xpub/markdown/node.rb:151-155 | inserting a page break anywhere in a child list leaves its render unchanged |
| `RenderProperties.RubiGroupMode` | lib/xpub/markdown/node.rb:120-132 | when the parent's character count differs from the number of readings, one `<rt>` after the whole parent holds all readings joined |
| `RenderProperties.RubiPerCharacter` | lib/xpub/markdown/node.rb:120-132 | when the counts are equal, character `i` of the parent is followed by reading `i` in its own `<rt>`, for every `i`, inside one `<ruby>`: no reading is dropped or padded |
| `RenderProperties.RubiPerCharacterLength` | lib/xpub/markdown/node.rb:124-126 | in per-character mode the output length is 13 + 10 per character + the total length of the readings |
| `RenderProperties.RubiSingleCharacter` | lib/xpub/markdown/node.rb:130-132 | one character with one reading is not a group, yet its markup coincides with the group template |
| `RenderProperties.RubiEmptyParent` | lib/xpub/markdown/node.rb:120-132 | an empty parent with no readings gives `<ruby></ruby>`; with readings it takes the group path |
| `RenderProperties.RubiTwoCharacters` | lib/xpub/markdown/node.rb:124-126 | two characters with two readings give two cells in order, so `友達` with `とも`, `だち` renders as `<ruby>友<rt>とも</rt>達<rt>だち</rt></ruby>` |
| `RenderProperties.ZippedCells` | lib/xpub/markdown/node.rb:124-126 | with equal counts, the cells built from the zip of the split parent with the readings are exactly "character `i`, `<rt>`, reading `i`, `</rt>`" for each `i` |
| `RenderProperties.RubiGroupExample` | lib/xpub/markdown/node.rb:121-122 | `友` with readings `とも`, `だち` renders as `<ruby>友<rt>ともだち</rt></ruby>` |
| `RenderProperties.InlineExample` | lib/xpub/markdown/node.rb:84-88 | an `em` element around the text `hi` renders as `<em>hi</em>`, with no newline |
| `RubyBuiltins.Join` | lib/xpub/markdown/node.rb:122 | joining no parts gives `""`, one part gives that part |
| `RubyBuiltins.JoinAppend` | lib/xpub/markdown/node.rb:7 | the join of `a + b` is the join of `a` followed by the join of `b` |
| `RubyBuiltins.JoinLength` | lib/xpub/markdown/node.rb:122 | the length of a join is the sum of the parts' lengths |
| `RubyBuiltins.SplitCharsAt` | lib/xpub/markdown/node.rb:124 | `split('')` yields one single-character string per character, in order |
| `RubyBuiltins.JoinSplitChars` | lib/xpub/markdown/node.rb:124 | joining the split characters gives back the string |
| `RubyBuiltins.ZipAt` | lib/xpub/markdown/node.rb:124 | `zip` pairs element `i` of the first list with element `i` of the second, or with `nil` past its end |
| `RubyBuiltins.NatToString` | lib/xpub/markdown/node.rb:33 | the level's decimal form is a non-empty digit string with no leading zero unless it is `0` |
| `RubyBuiltins.NatToStringRoundTrip` | lib/xpub/markdown/node.rb:33 | reading the decimal form back gives the number |
| `RubyBuiltins.NatToStringInjective` | lib/xpub/markdown/node.rb:33 | different levels give different tag numbers |

## Left out

- The `inspect` methods (node.rb lines 21-27, 90-92, 100-102, 134-136): debug strings that depend on Ruby's `Object#to_s` and `Array#to_s` formatting and are not part of the HTML output.
- The parser that builds the trees and declares the node attributes (`content`, `level`, `name`, `parent`, `rubistr`) is not part of this model; trees are an input datatype with one typed payload per class, so the `NoMethodError` that `content.map(&:to_html)` raises on a container whose `content` is nil or whose array holds a non-node cannot arise in the model.
- Headline levels are natural numbers: a negative level, which Ruby would print with a minus sign, is not modelled.
- `Scalar` carries the value's `to_s` already computed, and a text or tatenaka-yoko payload is a string; `to_s` of arbitrary Ruby objects is not modelled.
- Recursion depth and stack exhaustion on very deep trees are a runtime resource limit, not behaviour, and are not modelled.
