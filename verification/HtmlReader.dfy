/** A strict reader for the sanitizer's output, written as its specification, and the
    tree the output must read back as. */
module HtmlReader {
  import opened Wrappers
  import opened Text
  import opened HtmlPrinter

  // # The cleaned forest

  function KeptAttrs(tag: string, attrs: seq<Attr>): seq<Attr> {
    if attrs == [] then []
    else
      var a := Attr(Lower(attrs[0].key), attrs[0].val);
      (if AttrAllowed(tag, a.key, a.val) then [a] else []) + KeptAttrs(tag, attrs[1..])
  }

  /** Concatenation that merges a text meeting a text. */
  function Join(a: seq<Node>, b: seq<Node>): seq<Node> {
    if a != [] && b != [] && a[|a| - 1].Text? && b[0].Text?
    then a[..|a| - 1] + [Text(a[|a| - 1].data + b[0].data)] + b[1..]
    else a + b
  }

  /** Disallowed elements give way to their children, children of void elements are
      hoisted behind them, empty texts vanish and adjacent texts merge. */
  function CleanNode(n: Node): seq<Node>
    decreases n, 1
  {
    match n
    case Text(data) => if data == "" then [] else [n]
    case Element(t, attrs, children) =>
      var tag := Lower(t);
      if !IsAllowed(tag) then Clean(children)
      else if IsVoid(tag) then
        Join([Element(tag, KeptAttrs(tag, attrs), [])], Clean(children))
      else [Element(tag, KeptAttrs(tag, attrs), Clean(children))]
    case Other(children) => Clean(children)
  }

  function Clean(ns: seq<Node>): seq<Node>
    decreases ns, 0
  {
    if ns == [] then [] else Join(CleanNode(ns[0]), Clean(ns[1..]))
  }

  /** What a sanitized forest looks like: only allowlisted tags, attributes and URL
      schemes, childless void elements, and no empty or adjacent texts. */
  ghost predicate SafeNode(n: Node)
    decreases n, 1
  {
    match n
    case Text(data) => data != ""
    case Element(tag, attrs, children) =>
      && IsAllowed(tag)
      && tag == Lower(tag)
      && (forall a :: a in attrs ==> a.key == Lower(a.key) && AttrAllowed(tag, a.key, a.val))
      && (IsVoid(tag) ==> children == [])
      && Safe(children)
    case Other(_) => false
  }

  ghost predicate Safe(ns: seq<Node>)
    decreases ns, 0
  {
    ns != [] ==>
      && SafeNode(ns[0])
      && Safe(ns[1..])
      && (ns[0].Text? && |ns| > 1 ==> !ns[1].Text?)
  }

  /** All text of a forest, in document order. */
  function TextOf(ns: seq<Node>): string
    decreases ns
  {
    if ns == [] then ""
    else (match ns[0]
          case Text(data) => data
          case Element(_, _, children) => TextOf(children)
          case Other(children) => TextOf(children)) + TextOf(ns[1..])
  }

  // # The reader

  datatype Read<+T> = Fail | Ok(value: T, rest: string)

  const NAME_DELIMITERS: set<char> := {' ', '\t', '\n', '\U{000C}', '/', '='}

  /** Length of the longest prefix of s free of the characters in stop. */
  function Until(s: string, stop: set<char>): (n: nat)
    ensures n <= |s|
    ensures n < |s| ==> s[n] in stop
    ensures forall i :: 0 <= i < n ==> s[i] !in stop
  {
    if s == "" || s[0] in stop then 0 else 1 + Until(s[1..], stop)
  }

  predicate PlainName(name: string) {
    name != "" && forall c :: c in name ==> 'a' <= c <= 'z' || '0' <= c <= '9'
  }

  /** An attribute: a name free of delimiters, then ="value", both entity-decoded. */
  function ReadAttr(s: string): (r: Read<Attr>)
    ensures r.Ok? ==> |r.rest| < |s|
  {
    var n := Until(s, NAME_DELIMITERS + {'>', '"'});
    var key := Decode(s[..n]);
    if n == 0 || key.None? || !HasPrefix(s[n..], "=\"") then Fail
    else
      var t := s[n + 2..];
      var m := Until(t, {'"'});
      var val := Decode(t[..m]);
      if val.None? || m == |t| then Fail else Ok(Attr(key.value, val.value), t[m + 1..])
  }

  function ReadAttrs(s: string): (r: Read<seq<Attr>>)
    ensures r.Ok? ==> |r.rest| <= |s|
  {
    if s == "" || s[0] != ' ' then Ok([], s)
    else
      var a := ReadAttr(s[1..]);
      if a.Fail? then Fail else
      var more := ReadAttrs(a.rest);
      if more.Fail? then Fail else Ok([a.value] + more.value, more.rest)
  }

  /** An element: start tag, and unless it is void its content and the matching end tag. */
  function ReadElement(s: string): (r: Read<Node>)
    requires s != ""
    ensures r.Ok? ==> |r.rest| < |s|
    decreases |s|, 0
  {
    var n := Until(s[1..], {' ', '>'});
    var tag := s[1..][..n];
    var attrs := ReadAttrs(s[1..][n..]);
    if !PlainName(tag) || attrs.Fail? || !HasPrefix(attrs.rest, ">") then Fail
    else if IsVoid(tag) then Ok(Element(tag, attrs.value, []), attrs.rest[1..])
    else
      var kids := ReadForest(attrs.rest[1..]);
      if kids.Fail? || !HasPrefix(kids.rest, "</" + tag + ">") then Fail
      else Ok(Element(tag, attrs.value, kids.value), kids.rest[|tag| + 3..])
  }

  /** Text runs and elements up to the end of the input or an end tag. */
  function ReadForest(s: string): (r: Read<seq<Node>>)
    ensures r.Ok? ==> |r.rest| <= |s|
    decreases |s|, 1
  {
    if s == "" || HasPrefix(s, "</") then Ok([], s)
    else if s[0] == '<' then
      var e := ReadElement(s);
      if e.Fail? then Fail else
      var more := ReadForest(e.rest);
      if more.Fail? then Fail else Ok([e.value] + more.value, more.rest)
    else
      var n := Until(s, {'<'});
      var data := Decode(s[..n]);
      if data.None? then Fail else
      var more := ReadForest(s[n..]);
      if more.Fail? then Fail else Ok([Text(data.value)] + more.value, more.rest)
  }

  /** The whole input as one forest. */
  function ReadDocument(s: string): Option<seq<Node>> {
    var r := ReadForest(s);
    if r.Ok? && r.rest == "" then Some(r.value) else None
  }
}
