/**
 * The DOM tree the renderer starts from, the element name tables, and the
 * budget every visit of a node is charged to.
 */
module HtmlDom {
  import opened HtmlLinks

  datatype TagName =
    // dropped with everything in them
    | Applet | Audio | Button | Canvas | Embed | Form | Head | Iframe | Img | Input | LinkElement | MathElement
    | Meta | Noscript | ObjectElement | OptionElement | Script | Select | Source | Style | Svg | Textarea | Title
    | Track | Video
    // block containers
    | Address | Article | Aside | Body | Center | Div | Header | Html | MainElement | Nav | Paragraph | Section
    // other blocks
    | Heading(level: int) | Blockquote | Footer | Hr | Ol | Pre | Table | Ul
    // inline formatting
    | B | Strong | I | Em | U | Ins | S | Strike | Del | Code
    // handled on their own
    | A | Br | Li | Dt | Dd | Tr | Td | Th | Thead | Tbody | Tfoot | Caption
    | Other(name: string)

  /** The attributes the renderer reads. */
  datatype Attributes = Attributes(
    href: Option<string>, start: Option<string>, value: Option<string>, colspan: Option<string>,
    rowspan: Option<string>, align: Option<string>, valign: Option<string>, style: Option<string>, presentation: bool)

  /** `ordinal` is the number of a list item whose parent is an ordered list. */
  datatype Node =
    | Text(data: string)
    | Element(name: TagName, attrs: Attributes, ordinal: Option<int>, children: seq<Node>)
    | NonContent

  predicate IsDropped(n: TagName) {
    n.Applet? || n.Audio? || n.Button? || n.Canvas? || n.Embed? || n.Form? || n.Head? || n.Iframe? || n.Img?
    || n.Input? || n.LinkElement? || n.MathElement? || n.Meta? || n.Noscript? || n.ObjectElement? || n.OptionElement?
    || n.Script? || n.Select? || n.Source? || n.Style? || n.Svg? || n.Textarea? || n.Title? || n.Track? || n.Video?
  }

  predicate IsBlockContainer(n: TagName) {
    n.Address? || n.Article? || n.Aside? || n.Body? || n.Center? || n.Div? || n.Header? || n.Html? || n.MainElement?
    || n.Nav? || n.Paragraph? || n.Section?
  }

  predicate IsBlockElement(n: TagName) {
    IsBlockContainer(n) || n.Heading? || n.Blockquote? || n.Footer? || n.Hr? || n.Ol? || n.Pre? || n.Table? || n.Ul?
  }

  datatype Weight = Bold | Normal | NoWeight

  /** Parsers of attribute values and URLs, which the renderer only calls. */
  datatype Readers = Readers(
    safeHref: string -> Option<string>,
    synthesizedHref: SynthesizedHref,
    listNumber: string -> Option<int>,
    spanNumber: string -> Option<int>,
    fontWeight: string -> Weight,
    hasLetter: string -> bool)

  const MAX_VISITED_NODES := 20_000
  const MAX_INPUT_DEPTH := 32
  const MAX_MODEL_BLOCKS := 600

  /**
   * The parse context. `bounded` is true in the program; the unbounded parse
   * used as a reference runs the same functions with no limit enforced.
   */
  datatype Context = Context(
    visitedNodes: nat, sourceTruncated: bool, domTruncated: bool, nodeLimitExceeded: bool,
    depthLimitExceeded: bool, modelTruncated: bool, bounded: bool)
  {
    predicate LimitHit() {
      nodeLimitExceeded || depthLimitExceeded || modelTruncated
    }

    // The context of a parse without limits, which charges nothing.
    function Unbounded(): Context {
      this.(bounded := false, visitedNodes := 0)
    }

    predicate Truncated() {
      sourceTruncated || domTruncated || nodeLimitExceeded || depthLimitExceeded || modelTruncated
    }
  }

  // Charge one visited node; false when a limit forbids entering it.
  function Enter(ctx: Context, depth: nat): (bool, Context) {
    if !ctx.bounded then (true, ctx)
    else if depth > MAX_INPUT_DEPTH then (false, ctx.(depthLimitExceeded := true))
    else if ctx.nodeLimitExceeded then (false, ctx)
    else
      var charged := ctx.(visitedNodes := ctx.visitedNodes + 1);
      if charged.visitedNodes > MAX_VISITED_NODES then (false, charged.(nodeLimitExceeded := true))
      else (true, charged)
  }

  /** The mutable context object the parser passes around. */
  class ParseContext {
    var visitedNodes: nat
    var sourceTruncated: bool
    var domTruncated: bool
    var nodeLimitExceeded: bool
    var depthLimitExceeded: bool
    var modelTruncated: bool

    constructor (sourceTruncated: bool, domTruncated: bool)
      ensures Value() == Context(0, sourceTruncated, domTruncated, false, false, false, true)
    {
      this.visitedNodes := 0;
      this.sourceTruncated, this.domTruncated := sourceTruncated, domTruncated;
      nodeLimitExceeded, depthLimitExceeded, modelTruncated := false, false, false;
    }

    function Value(): Context
      reads this
    {
      Context(visitedNodes, sourceTruncated, domTruncated, nodeLimitExceeded, depthLimitExceeded, modelTruncated, true)
    }

    method EnterNode(depth: nat) returns (entered: bool)
      modifies this
      ensures (entered, Value()) == Enter(old(Value()), depth)
      ensures entered ==> depth <= MAX_INPUT_DEPTH && visitedNodes <= MAX_VISITED_NODES && !nodeLimitExceeded
    {
      if depth > MAX_INPUT_DEPTH {
        depthLimitExceeded := true;
        return false;
      }
      if nodeLimitExceeded {
        return false;
      }
      visitedNodes := visitedNodes + 1;
      if visitedNodes > MAX_VISITED_NODES {
        nodeLimitExceeded := true;
        return false;
      }
      return true;
    }
  }
}
