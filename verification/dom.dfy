/** The part of a document tree the extractors read. A text node carries
    its text; an element carries the colour its inline style declares
    (already normalised the way the DOM reports it, "" when none) and its
    ordered child nodes. */
module Dom {
  import opened Results

  datatype Node = Text(text: string) | Elem(color: string, children: seq<Node>)

  /** `childNodes`: a text node has none. */
  function Children(n: Node): seq<Node> {
    if n.Elem? then n.children else []
  }

  /** `textContent`: the text of every descendant text node, in document order. */
  function TextContent(n: Node): (r: string)
    ensures n.Text? ==> r == n.text
    ensures n.Elem? && |n.children| > 0 ==> TextContent(n.children[0]) <= r
    decreases n, 1
  {
    match n
    case Text(t) => t
    case Elem(_, cs) => ConcatText(cs)
  }

  function ConcatText(cs: seq<Node>): string
    decreases cs, 0
  {
    if |cs| == 0 then "" else TextContent(cs[0]) + ConcatText(cs[1..])
  }

  /** A link (`<a>`) as the portal extractor reads it. */
  datatype Anchor = Anchor(text: string, href: Option<string>)

  /** An image (`<img>`) with its `alt` text and its `src` attribute, if any. */
  datatype Img = Img(alt: string, src: Option<string>)

  /** A row (`<tr>`) of the report table: the row node itself, and what the
      row's selectors find in it — the first link, the portal image
      (`alt` starting with "Portal - "), the map image (`alt` "Map") and the
      status block of a damage row. */
  datatype Row = Row(
    node: Node,
    anchor: Option<Anchor>,
    portalImage: Option<Img>,
    mapImage: Option<Img>,
    statusBlock: Option<Node>)
}
