/** The sanitizer's policy, written out: which elements and attributes stay, and where every
    element and every character of text ends up. */
module HtmlPolicy {
  import opened Wrappers
  import opened Text
  import opened Subsequence
  import opened HtmlPrinter
  import opened HtmlReader
  import opened HtmlTheorems

  // # The tables

  const ELEMENTS: seq<string> := [
    "font", "del", "strike", "s", "h1", "h2", "h3", "h4", "h5", "h6", "blockquote", "p", "a", "ul", "ol", "li",
    "sup", "sub", "b", "i", "u", "strong", "em", "code", "hr", "br", "div", "table", "thead", "tbody", "tr", "th",
    "td", "caption", "pre", "span", "img", "details", "summary"
  ]

  const ATTRIBUTES: seq<(string, string)> := [
    ("font", "color"), ("font", "face"), ("a", "name"), ("a", "target"), ("a", "href"), ("img", "width"),
    ("img", "height"), ("img", "alt"), ("img", "title"), ("img", "src"), ("ol", "start"), ("li", "value"),
    ("code", "class"), ("td", "colspan"), ("td", "rowspan"), ("th", "colspan"), ("th", "rowspan")
  ]

  const TARGETS: seq<string> := ["https://", "http://", "matrix:", "mailto:", "mxc://", "#"]

  predicate Begins(s: string, prefix: string) {
    |prefix| <= |s| && forall i :: 0 <= i < |prefix| ==> s[i] == prefix[i]
  }

  /** Without the blanks around it and in lower case, the target begins as one listed. */
  predicate TargetListed(val: string) {
    exists k :: 0 <= k < |TARGETS| && Begins(Lower(TrimSpace(val)), TARGETS[k])
  }

  /** The attribute stays: it is of Matrix's own kind, or listed for the element, and if it is a
      link or an image source its target is listed. */
  predicate Stays(tag: string, a: Attr) {
    || Begins(a.key, "data-mx-")
    || ((tag, a.key) in ATTRIBUTES && (a.key == "href" || a.key == "src" ==> TargetListed(a.val)))
  }

  lemma PrefixBegins(s: string, prefix: string)
    ensures HasPrefix(s, prefix) <==> Begins(s, prefix)
  {
    if Begins(s, prefix) {
      assert s[..|prefix|] == prefix;
    }
  }

  lemma SafeIsListed(val: string)
    ensures IsSafeURL(val) <==> TargetListed(val)
  {
    var lower := Lower(TrimSpace(val));
    hide Lower, TrimSpace, Begins, HasPrefix;
    PrefixBegins(lower, "https://");
    PrefixBegins(lower, "http://");
    PrefixBegins(lower, "matrix:");
    PrefixBegins(lower, "mailto:");
    PrefixBegins(lower, "mxc://");
    PrefixBegins(lower, "#");
    assert TARGETS[0] == "https://" && TARGETS[1] == "http://" && TARGETS[2] == "matrix:";
    assert TARGETS[3] == "mailto:" && TARGETS[4] == "mxc://" && TARGETS[5] == "#";
  }

  lemma ElementsAreListed(tag: string)
    ensures IsAllowed(tag) <==> tag in ELEMENTS
  {
  }

  lemma AttributesAreListed(tag: string, key: string)
    ensures key in PermittedAttrs(tag) && !HasPrefix(key, "data-mx-") <==> (tag, key) in ATTRIBUTES
  {
  }

  lemma AllowedStays(tag: string, a: Attr)
    ensures AttrAllowed(tag, a.key, a.val) <==> Stays(tag, a)
  {
    PrefixBegins(a.key, "data-mx-");
    SafeIsListed(a.val);
    AttributesAreListed(tag, a.key);
    hide HasPrefix, Begins, IsSafeURL, TargetListed, PermittedAttrs, ATTRIBUTES;
  }

  // # Attributes

  function StaysOn(tag: string): Attr -> bool {
    (a: Attr) => Stays(tag, a)
  }

  function LowerKeys(attrs: seq<Attr>): seq<Attr> {
    seq(|attrs|, i requires 0 <= i < |attrs| => Attr(Lower(attrs[i].key), attrs[i].val))
  }

  /** The attributes kept are those that stay, all of them, in order, their names in lower case. */
  lemma {:induction false} KeptAttrsAreThoseThatStay(tag: string, attrs: seq<Attr>)
    ensures KeptAttrs(tag, attrs) == Select(StaysOn(tag), LowerKeys(attrs))
  {
    hide Stays, AttrAllowed, Lower, Select;
    if attrs == [] {
      SelectNothing(StaysOn(tag));
      assert LowerKeys(attrs) == [];
    } else {
      var a := Attr(Lower(attrs[0].key), attrs[0].val);
      KeptAttrsAreThoseThatStay(tag, attrs[1..]);
      AllowedStays(tag, a);
      SelectConcat(StaysOn(tag), [a], LowerKeys(attrs[1..]));
      assert LowerKeys(attrs) == [a] + LowerKeys(attrs[1..]);
      SelectOne(StaysOn(tag), a);
    }
  }

  lemma SelectNothing<T>(p: T -> bool)
    ensures Select(p, []) == []
  {
  }

  lemma SelectOne<T>(p: T -> bool, x: T)
    ensures Select(p, [x]) == if p(x) then [x] else []
  {
    assert [x][..0] == [];
  }

  // # The whole forest

  /** An element's start, or a character of text, and the elements it is in, outermost first. */
  datatype Piece = Open(path: seq<string>, tag: string, attrs: seq<Attr>) | Character(path: seq<string>, c: char)

  function Characters(path: seq<string>, data: string): seq<Piece> {
    seq(|data|, i requires 0 <= i < |data| => Character(path, data[i]))
  }

  /** The pieces of a forest as it stands, in document order. */
  function Pieces(ns: seq<Node>, path: seq<string>): seq<Piece>
    decreases ns, 0
  {
    if ns == [] then [] else PiecesOf(ns[0], path) + Pieces(ns[1..], path)
  }

  function PiecesOf(n: Node, path: seq<string>): seq<Piece>
    decreases n, 1
  {
    match n
    case Text(data) => Characters(path, data)
    case Element(tag, attrs, children) => [Open(path, tag, attrs)] + Pieces(children, path + [tag])
    case Other(children) => Pieces(children, path)
  }

  /** The pieces that the policy leaves of a forest: listed elements with the attributes that
      stay, and all text, each in the listed elements around it that can have content. */
  function Remains(ns: seq<Node>, path: seq<string>): seq<Piece>
    decreases ns, 0
  {
    if ns == [] then [] else RemainsOf(ns[0], path) + Remains(ns[1..], path)
  }

  function RemainsOf(n: Node, path: seq<string>): seq<Piece>
    decreases n, 1
  {
    match n
    case Text(data) => Characters(path, data)
    case Element(t, attrs, children) =>
      var tag := Lower(t);
      if tag !in ELEMENTS then Remains(children, path)
      else
        [Open(path, tag, Select(StaysOn(tag), LowerKeys(attrs)))]
        + Remains(children, if tag == "br" || tag == "hr" || tag == "img" then path else path + [tag])
    case Other(children) => Remains(children, path)
  }

  lemma {:induction false} PiecesConcat(a: seq<Node>, b: seq<Node>, path: seq<string>)
    ensures Pieces(a + b, path) == Pieces(a, path) + Pieces(b, path)
  {
    if a == [] {
      assert a + b == b;
    } else {
      assert (a + b)[1..] == a[1..] + b;
      PiecesConcat(a[1..], b, path);
      RegroupSeqs(PiecesOf(a[0], path), Pieces(a[1..], path), Pieces(b, path));
      hide PiecesOf;
    }
  }

  lemma RegroupSeqs<T>(a: seq<T>, b: seq<T>, c: seq<T>)
    ensures a + b + c == a + (b + c)
  {
  }

  lemma PiecesSingle(n: Node, path: seq<string>)
    ensures Pieces([n], path) == PiecesOf(n, path)
  {
    hide PiecesOf;
    assert [n][1..] == [];
    assert PiecesOf(n, path) + [] == PiecesOf(n, path);
  }

  lemma PiecesJoin(a: seq<Node>, b: seq<Node>, path: seq<string>)
    ensures Pieces(Join(a, b), path) == Pieces(a, path) + Pieces(b, path)
  {
    PiecesConcat(a, b, path);
    if a != [] && b != [] && a[|a| - 1].Text? && b[0].Text? {
      var last := |a| - 1;
      assert a == a[..last] + [Text(a[last].data)] && b == [Text(b[0].data)] + b[1..];
      PiecesMerge(a[..last], a[last].data, b[0].data, b[1..], path);
    }
  }

  lemma PiecesMerge(init: seq<Node>, x: string, y: string, tail: seq<Node>, path: seq<string>)
    ensures Pieces(init + [Text(x + y)] + tail, path)
         == Pieces(init + [Text(x)], path) + Pieces([Text(y)] + tail, path)
  {
    PiecesConcat(init + [Text(x + y)], tail, path);
    PiecesConcat(init, [Text(x + y)], path);
    PiecesConcat(init, [Text(x)], path);
    PiecesConcat([Text(y)], tail, path);
    PiecesSingle(Text(x), path);
    PiecesSingle(Text(y), path);
    PiecesSingle(Text(x + y), path);
    hide Pieces;
    var i, t := Pieces(init, path), Pieces(tail, path);
    assert Characters(path, x + y) == Characters(path, x) + Characters(path, y);
    assert i + (Characters(path, x) + Characters(path, y)) + t
        == (i + Characters(path, x)) + (Characters(path, y) + t);
  }

  /** Cleaning leaves exactly what the policy leaves: every listed element of the forest and no
      other, each with exactly the attributes that stay, and every character of text, in order
      and in place. */
  lemma {:induction false} CleanIsPolicy(ns: seq<Node>, path: seq<string>)
    ensures Pieces(Clean(ns), path) == Remains(ns, path)
    decreases ns, 0
  {
    if ns != [] {
      CleanNodeIsPolicy(ns[0], path);
      CleanIsPolicy(ns[1..], path);
      PiecesJoin(CleanNode(ns[0]), Clean(ns[1..]), path);
      hide CleanNode, PiecesOf, RemainsOf;
    }
  }

  lemma {:induction false} CleanNodeIsPolicy(n: Node, path: seq<string>)
    ensures Pieces(CleanNode(n), path) == RemainsOf(n, path)
    decreases n, 1
  {
    hide IsAllowed, AttrAllowed, Lower, KeptAttrs, ELEMENTS;
    match n
    case Text(_) => PiecesSingle(n, path);
    case Other(children) => CleanIsPolicy(children, path);
    case Element(t, attrs, children) =>
      var tag := Lower(t);
      ElementsAreListed(tag);
      KeptAttrsAreThoseThatStay(tag, attrs);
      if IsAllowed(tag) {
        var kept := KeptAttrs(tag, attrs);
        if IsVoid(tag) {
          CleanIsPolicy(children, path);
          PiecesJoin([Element(tag, kept, [])], Clean(children), path);
          PiecesSingle(Element(tag, kept, []), path);
        } else {
          CleanIsPolicy(children, path + [tag]);
          PiecesSingle(Element(tag, kept, Clean(children)), path);
        }
      } else {
        CleanIsPolicy(children, path);
      }
  }

  // # URL schemes

  const SAFE_SCHEMES: set<string> := {"https", "http", "matrix", "mailto", "mxc"}

  /** What precedes the first colon. */
  function SchemeOf(u: string): string {
    u[..Until(u, {':'})]
  }

  lemma {:induction false} UntilFirst(s: string, n: nat)
    requires n < |s| && s[n] == ':' && forall i :: 0 <= i < n ==> s[i] != ':'
    ensures Until(s, {':'}) == n
  {
    if n > 0 {
      UntilFirst(s[1..], n - 1);
    }
  }

  lemma PrefixGivesScheme(u: string, scheme: string)
    requires HasPrefix(u, scheme + ":") && forall i :: 0 <= i < |scheme| ==> scheme[i] != ':'
    ensures SchemeOf(u) == scheme
  {
    var p := scheme + ":";
    assert forall i :: 0 <= i < |p| ==> u[i] == u[..|p|][i] == p[i];
    UntilFirst(u, |scheme|);
    assert u[..|scheme|] == p[..|scheme|] == scheme;
  }

  lemma PrefixOfPrefix(u: string, p: string, q: string)
    requires HasPrefix(u, p + q)
    ensures HasPrefix(u, p)
  {
    assert u[..|p|] == u[..|p + q|][..|p|] == p;
  }

  /** A listed target is, once trimmed and lower-cased, a fragment or has one of five schemes. */
  lemma TargetHasScheme(u: string)
    requires TargetListed(u)
    ensures var target := Lower(TrimSpace(u));
            target != "" && (target[0] == '#' || SchemeOf(target) in SAFE_SCHEMES)
  {
    var target := Lower(TrimSpace(u));
    hide Lower, TrimSpace, Until;
    var k :| 0 <= k < |TARGETS| && Begins(target, TARGETS[k]);
    PrefixBegins(target, TARGETS[k]);
    if k == 0 {
      PrefixOfPrefix(target, "https:", "//");
      PrefixGivesScheme(target, "https");
    } else if k == 1 {
      PrefixOfPrefix(target, "http:", "//");
      PrefixGivesScheme(target, "http");
    } else if k == 2 {
      PrefixGivesScheme(target, "matrix");
    } else if k == 3 {
      PrefixGivesScheme(target, "mailto");
    } else if k == 4 {
      PrefixOfPrefix(target, "mxc:", "//");
      PrefixGivesScheme(target, "mxc");
    }
  }

  // # What is left meets the policy

  ghost predicate MeetsPolicy(piece: Piece) {
    piece.Open? ==>
      && piece.tag in ELEMENTS
      && forall a :: a in piece.attrs ==>
           && Stays(piece.tag, a)
           && (a.key == "href" || a.key == "src" ==>
                 var target := Lower(TrimSpace(a.val));
                 target != "" && (target[0] == '#' || SchemeOf(target) in SAFE_SCHEMES))
  }

  lemma SelectedHold<T>(p: T -> bool, s: seq<T>)
    ensures forall x :: x in Select(p, s) ==> p(x)
  {
    forall x | x in Select(p, s) ensures p(x) {
      SelectMember(p, s, x);
    }
  }

  lemma StayingMeets(path: seq<string>, tag: string, attrs: seq<Attr>)
    requires tag in ELEMENTS
    ensures MeetsPolicy(Open(path, tag, Select(StaysOn(tag), LowerKeys(attrs))))
  {
    hide ELEMENTS, Select, Begins, TargetListed, ATTRIBUTES, SAFE_SCHEMES, SchemeOf, TrimSpace, Lower;
    var kept := Select(StaysOn(tag), LowerKeys(attrs));
    SelectedHold(StaysOn(tag), LowerKeys(attrs));
    forall a | a in kept && (a.key == "href" || a.key == "src")
      ensures var target := Lower(TrimSpace(a.val));
              target != "" && (target[0] == '#' || SchemeOf(target) in SAFE_SCHEMES)
    {
      LinkIsNotCustom(a.key);
      TargetHasScheme(a.val);
    }
  }

  lemma LinkIsNotCustom(key: string)
    ensures key == "href" || key == "src" ==> !Begins(key, "data-mx-")
  {
  }

  lemma {:induction false} RemainsMeetPolicy(ns: seq<Node>, path: seq<string>)
    ensures forall piece :: piece in Remains(ns, path) ==> MeetsPolicy(piece)
    decreases ns, 0
  {
    hide MeetsPolicy;
    if ns != [] {
      RemainsOfMeetPolicy(ns[0], path);
      RemainsMeetPolicy(ns[1..], path);
    }
  }

  lemma {:induction false} RemainsOfMeetPolicy(n: Node, path: seq<string>)
    ensures forall piece :: piece in RemainsOf(n, path) ==> MeetsPolicy(piece)
    decreases n, 1
  {
    match n
    case Text(data) => CharactersMeetPolicy(path, data);
    case Other(children) =>
      hide MeetsPolicy;
      RemainsMeetPolicy(children, path);
    case Element(t, attrs, children) =>
      hide MeetsPolicy, ELEMENTS, Lower;
      var tag := Lower(t);
      RemainsMeetPolicy(children, path);
      RemainsMeetPolicy(children, path + [tag]);
      if tag in ELEMENTS {
        StayingMeets(path, tag, attrs);
      }
  }

  lemma CharactersMeetPolicy(path: seq<string>, data: string)
    ensures forall piece :: piece in Characters(path, data) ==> MeetsPolicy(piece)
  {
  }

  /** The entry point: what a reader gets back is what the policy leaves of the parsed forest, or
      the input as text when there is none, and every element of it is listed, carries only
      attributes that stay, and links only to fragments and listed schemes. */
  lemma SanitizedMeetsPolicy(input: string, parsed: Option<seq<Node>>)
    requires parsed.Some? ==> ReadableKeys(parsed.value)
    ensures var forest := if parsed.None? || parsed.value == [] then [Text(input)] else parsed.value;
            var doc := ReadDocument(SanitizeSpec(input, parsed));
            && doc.Some? && Pieces(doc.value, []) == Remains(forest, [])
            && forall piece :: piece in Pieces(doc.value, []) ==> MeetsPolicy(piece)
  {
    var forest := if parsed.None? || parsed.value == [] then [Text(input)] else parsed.value;
    SanitizeReadsBack(input, parsed);
    CleanIsPolicy(forest, []);
    RemainsMeetPolicy(forest, []);
    hide MeetsPolicy, SanitizeSpec, Pieces, Remains, Clean, ReadableKeys;
  }
}
