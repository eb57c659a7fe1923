/** The sanitizing printer of internal/engine/html.go, from the parsed node tree onwards:
    the methods append to a shared builder as the source does, and are specified by
    `RenderAll`, whose meaning HtmlReader.dfy pins down. */
module HtmlPrinter {
  import opened Wrappers
  import opened Text

  datatype Attr = Attr(key: string, val: string)

  /** `Other` is any node that is neither text nor element: comments, doctypes, documents. */
  datatype Node =
    | Text(data: string)
    | Element(tag: string, attrs: seq<Attr>, children: seq<Node>)
    | Other(children: seq<Node>)

  const ALLOWED_ELEMENTS: set<string> := {
    "font", "del", "strike", "s", "h1", "h2", "h3", "h4", "h5", "h6", "blockquote", "p", "a",
    "ul", "ol", "li", "sup", "sub", "b", "i", "u", "strong", "em", "code", "hr", "br", "div",
    "table", "thead", "tbody", "tr", "th", "td", "caption", "pre", "span", "img",
    "details", "summary"
  }

  const VOID_ELEMENTS: set<string> := {"br", "hr", "img"}

  predicate IsAllowed(tag: string) { tag in ALLOWED_ELEMENTS }

  predicate IsVoid(tag: string) { tag in VOID_ELEMENTS }

  /** The attributes an element may carry besides the data-mx-* ones. */
  function PermittedAttrs(tag: string): set<string> {
    if tag == "font" then {"color", "face", "data-mx-bg-color", "data-mx-color"}
    else if tag == "span" then {"data-mx-bg-color", "data-mx-color", "data-mx-spoiler"}
    else if tag == "a" then {"name", "target", "href"}
    else if tag == "img" then {"width", "height", "alt", "title", "src"}
    else if tag == "ol" then {"start"}
    else if tag == "li" then {"value"}
    else if tag == "code" then {"class"}
    else if tag == "td" || tag == "th" then {"colspan", "rowspan"}
    else {}
  }

  predicate IsSafeURL(u: string) {
    var lower := Lower(TrimSpace(u));
    HasPrefix(lower, "https://") || HasPrefix(lower, "http://") || HasPrefix(lower, "matrix:") ||
    HasPrefix(lower, "mailto:") || HasPrefix(lower, "mxc://") || HasPrefix(lower, "#")
  }

  /** Whether an attribute with this lower-cased key is written on this element. */
  predicate AttrAllowed(tag: string, key: string, val: string) {
    HasPrefix(key, "data-mx-") ||
    (key in PermittedAttrs(tag) && (key in {"href", "src"} ==> IsSafeURL(val)))
  }

  // Specification of the printer

  function RenderAttr(key: string, val: string): string {
    " " + Escape(key) + "=\"" + Escape(val) + "\""
  }

  function RenderAttrs(tag: string, attrs: seq<Attr>): string {
    if attrs == [] then ""
    else
      var key := Lower(attrs[0].key);
      (if AttrAllowed(tag, key, attrs[0].val) then RenderAttr(key, attrs[0].val) else "")
      + RenderAttrs(tag, attrs[1..])
  }

  function Render(n: Node): string
    decreases n, 1
  {
    match n
    case Text(data) => Escape(data)
    case Element(t, attrs, children) =>
      var tag := Lower(t);
      if IsAllowed(tag) then
        "<" + tag + RenderAttrs(tag, attrs) + ">" + RenderAll(children)
        + (if IsVoid(tag) then "" else "</" + tag + ">")
      else RenderAll(children)
    case Other(children) => RenderAll(children)
  }

  function RenderAll(ns: seq<Node>): string
    decreases ns, 0
  {
    if ns == [] then "" else Render(ns[0]) + RenderAll(ns[1..])
  }

  /** `parsed` is what the HTML parser made of `input`; None is a parse error. */
  function SanitizeSpec(input: string, parsed: Option<seq<Node>>): string {
    if parsed.None? || parsed.value == [] then Escape(input) else RenderAll(parsed.value)
  }

  // The printer

  class Builder {
    var text: string

    constructor ()
      ensures text == ""
    {
      text := "";
    }

    method Write(s: string)
      modifies this
      ensures text == old(text) + s
    {
      text := text + s;
    }
  }

  method WriteAttr(sb: Builder, key: string, val: string)
    modifies sb
    ensures sb.text == old(sb.text) + RenderAttr(key, val)
  {
    ghost var start := sb.text;
    sb.Write(" ");
    sb.Write(Escape(key));
    Regroup(start, " ", Escape(key));
    sb.Write("=\"");
    Regroup(start, " " + Escape(key), "=\"");
    sb.Write(Escape(val));
    Regroup(start, " " + Escape(key) + "=\"", Escape(val));
    sb.Write("\"");
    Regroup(start, " " + Escape(key) + "=\"" + Escape(val), "\"");
  }

  method WriteAllowedAttrs(sb: Builder, tag: string, attrs: seq<Attr>)
    modifies sb
    ensures sb.text == old(sb.text) + RenderAttrs(tag, attrs)
  {
    var permitted := PermittedAttrs(tag);
    ghost var goal := sb.text + RenderAttrs(tag, attrs);
    for i := 0 to |attrs|
      invariant sb.text + RenderAttrs(tag, attrs[i..]) == goal
    {
      var key := Lower(attrs[i].key);
      var val := attrs[i].val;
      assert attrs[i..][0] == attrs[i] && attrs[i..][1..] == attrs[i + 1..];
      ghost var start, rest := sb.text, RenderAttrs(tag, attrs[i + 1..]);
      Regroup(start, RenderAttr(key, val), rest);
      assert "" + rest == rest;
      if HasPrefix(key, "data-mx-") {
        WriteAttr(sb, key, val);
        continue;
      }
      if key !in permitted {
        continue;
      }
      if key == "href" || key == "src" {
        if !IsSafeURL(val) {
          continue;
        }
      }
      WriteAttr(sb, key, val);
    }
  }

  method SanitizeChildren(sb: Builder, children: seq<Node>)
    modifies sb
    ensures sb.text == old(sb.text) + RenderAll(children)
    decreases children, 0
  {
    hide Render;
    ghost var goal := sb.text + RenderAll(children);
    for i := 0 to |children|
      invariant sb.text + RenderAll(children[i..]) == goal
    {
      assert children[i..][0] == children[i] && children[i..][1..] == children[i + 1..];
      Regroup(sb.text, Render(children[i]), RenderAll(children[i + 1..]));
      SanitizeNode(sb, children[i]);
    }
  }

  method SanitizeNode(sb: Builder, n: Node)
    modifies sb
    ensures sb.text == old(sb.text) + Render(n)
    decreases n, 1
  {
    match n
    case Text(data) => sb.Write(Escape(data));
    case Element(t, attrs, children) =>
      var tag := Lower(t);
      if IsAllowed(tag) {
        ghost var start, attrText, body := sb.text, RenderAttrs(tag, attrs), RenderAll(children);
        sb.Write("<");
        sb.Write(tag);
        Regroup(start, "<", tag);
        WriteAllowedAttrs(sb, tag, attrs);
        Regroup(start, "<" + tag, attrText);
        sb.Write(">");
        Regroup(start, "<" + tag + attrText, ">");
        SanitizeChildren(sb, children);
        ghost var open := "<" + tag + attrText + ">" + body;
        Regroup(start, "<" + tag + attrText + ">", body);
        if !IsVoid(tag) {
          sb.Write("</");
          sb.Write(tag);
          sb.Write(">");
          Regroup(start + open, "</", tag);
          Regroup(start + open, "</" + tag, ">");
          Regroup(start, open, "</" + tag + ">");
        }
      } else {
        SanitizeChildren(sb, children);
      }
    case Other(children) => SanitizeChildren(sb, children);
  }

  method SanitizeHTML(input: string, parsed: Option<seq<Node>>) returns (out: string)
    ensures out == SanitizeSpec(input, parsed)
  {
    if parsed.None? || |parsed.value| == 0 {
      return Escape(input);
    }
    var sb := new Builder();
    SanitizeChildren(sb, parsed.value);
    out := sb.text;
  }
}
