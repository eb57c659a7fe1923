/** What the sanitizer guarantees: its output reads back as exactly the cleaned forest,
    which is safe, keeps the text, and is a fixed point. */
module HtmlTheorems {
  import opened Wrappers
  import opened Text
  import opened HtmlPrinter
  import opened HtmlReader

  // # Attribute names

  predicate ReadableKey(key: string) {
    key != "" && forall c :: c in key ==> c !in NAME_DELIMITERS
  }

  /** Every attribute that is written has a name free of the delimiters that would end it.
      Of a parsed tree that is always so: the HTML tokenizer ends a name at a delimiter, save
      for an '=' in first place, and no allowed name begins with '='. */
  ghost predicate ReadableKeys(ns: seq<Node>)
    decreases ns, 0
  {
    ns != [] ==> NodeReadable(ns[0]) && ReadableKeys(ns[1..])
  }

  ghost predicate NodeReadable(n: Node)
    decreases n, 1
  {
    match n
    case Text(_) => true
    case Element(t, attrs, children) =>
      && ReadableKeys(children)
      && (IsAllowed(Lower(t)) ==>
            forall a :: a in attrs && AttrAllowed(Lower(t), Lower(a.key), a.val) ==> ReadableKey(Lower(a.key)))
    case Other(children) => ReadableKeys(children)
  }

  lemma AllowedNamesArePlain(tag: string)
    requires IsAllowed(tag)
    ensures PlainName(tag)
  {
  }

  // # Joining

  lemma {:induction false} RenderAllConcat(a: seq<Node>, b: seq<Node>)
    ensures RenderAll(a + b) == RenderAll(a) + RenderAll(b)
  {
    if a == [] {
      assert a + b == b;
    } else {
      RenderAllConcat(a[1..], b);
      assert (a + b)[1..] == a[1..] + b;
      Regroup(Render(a[0]), RenderAll(a[1..]), RenderAll(b));
    }
  }

  lemma RenderSingle(n: Node)
    ensures RenderAll([n]) == Render(n)
  {
    assert [n][1..] == [];
    assert Render(n) + "" == Render(n);
  }

  lemma RenderJoin(a: seq<Node>, b: seq<Node>)
    ensures RenderAll(Join(a, b)) == RenderAll(a) + RenderAll(b)
  {
    RenderAllConcat(a, b);
    if a != [] && b != [] && a[|a| - 1].Text? && b[0].Text? {
      var last := |a| - 1;
      assert a == a[..last] + [Text(a[last].data)] && b == [Text(b[0].data)] + b[1..];
      RenderMerge(a[..last], a[last].data, b[0].data, b[1..]);
    }
  }

  lemma RenderMerge(init: seq<Node>, x: string, y: string, tail: seq<Node>)
    ensures RenderAll(init + [Text(x + y)] + tail) == RenderAll(init + [Text(x)]) + RenderAll([Text(y)] + tail)
  {
    RenderAllConcat(init + [Text(x + y)], tail);
    RenderAllConcat(init, [Text(x + y)]);
    RenderAllConcat(init, [Text(x)]);
    RenderAllConcat([Text(y)], tail);
    RenderSingle(Text(x));
    RenderSingle(Text(y));
    RenderSingle(Text(x + y));
    EscapeConcat(x, y);
    RegroupFour(RenderAll(init), Escape(x), Escape(y), RenderAll(tail));
  }

  lemma RegroupFour(a: string, b: string, c: string, d: string)
    ensures a + (b + c) + d == (a + b) + (c + d)
  {
  }

  lemma {:induction false} SafeConcat(a: seq<Node>, b: seq<Node>)
    requires Safe(a) && Safe(b)
    requires a != [] && b != [] ==> !(a[|a| - 1].Text? && b[0].Text?)
    ensures Safe(a + b)
  {
    if a == [] {
      assert a + b == b;
    } else {
      assert (a + b)[1..] == a[1..] + b;
      SafeConcat(a[1..], b);
    }
  }

  lemma {:induction false} SafeParts(a: seq<Node>, i: nat)
    requires Safe(a) && i <= |a|
    ensures Safe(a[..i]) && Safe(a[i..])
    ensures i < |a| ==> SafeNode(a[i])
    ensures 0 < i < |a| ==> !(a[i - 1].Text? && a[i].Text?)
  {
    if i == 0 {
      assert a[0..] == a;
    } else {
      SafeParts(a[1..], i - 1);
      assert a[1..][i - 1..] == a[i..];
      assert a[..i][1..] == a[1..][..i - 1];
    }
  }

  lemma SafeJoin(a: seq<Node>, b: seq<Node>)
    requires Safe(a) && Safe(b)
    ensures Safe(Join(a, b))
  {
    if a != [] && b != [] && a[|a| - 1].Text? && b[0].Text? {
      var last := |a| - 1;
      SafeParts(a, last);
      var m := [Text(a[last].data + b[0].data)];
      assert m[1..] == [];
      SafeConcat(m, b[1..]);
      SafeConcat(a[..last], m + b[1..]);
      assert Join(a, b) == a[..last] + (m + b[1..]);
    } else {
      SafeConcat(a, b);
    }
  }

  lemma {:induction false} ReadableConcat(a: seq<Node>, b: seq<Node>)
    ensures ReadableKeys(a + b) <==> ReadableKeys(a) && ReadableKeys(b)
  {
    if a == [] {
      assert a + b == b;
    } else {
      assert (a + b)[1..] == a[1..] + b;
      ReadableConcat(a[1..], b);
    }
  }

  lemma ReadableJoin(a: seq<Node>, b: seq<Node>)
    ensures ReadableKeys(Join(a, b)) <==> ReadableKeys(a) && ReadableKeys(b)
  {
    ReadableConcat(a, b);
    if a != [] && b != [] && a[|a| - 1].Text? && b[0].Text? {
      var init, last, m := a[..|a| - 1], [a[|a| - 1]], [Text(a[|a| - 1].data + b[0].data)];
      assert a == init + last && m[1..] == [] && last[1..] == [];
      ReadableConcat(init, last);
      ReadableConcat(init, m);
      ReadableConcat(init + m, b[1..]);
    }
  }

  lemma {:induction false} TextConcat(a: seq<Node>, b: seq<Node>)
    ensures TextOf(a + b) == TextOf(a) + TextOf(b)
  {
    if a == [] {
      assert a + b == b;
    } else {
      assert (a + b)[1..] == a[1..] + b;
      TextConcat(a[1..], b);
    }
  }

  lemma TextJoin(a: seq<Node>, b: seq<Node>)
    ensures TextOf(Join(a, b)) == TextOf(a) + TextOf(b)
  {
    TextConcat(a, b);
    if a != [] && b != [] && a[|a| - 1].Text? && b[0].Text? {
      var last := |a| - 1;
      assert a == a[..last] + [Text(a[last].data)] && b == [Text(b[0].data)] + b[1..];
      TextMerge(a[..last], a[last].data, b[0].data, b[1..]);
    }
  }

  lemma TextMerge(init: seq<Node>, x: string, y: string, tail: seq<Node>)
    ensures TextOf(init + [Text(x + y)] + tail) == TextOf(init + [Text(x)]) + TextOf([Text(y)] + tail)
  {
    TextConcat(init + [Text(x + y)], tail);
    TextConcat(init, [Text(x + y)]);
    TextConcat(init, [Text(x)]);
    TextConcat([Text(y)], tail);
    TextSingle(x);
    TextSingle(y);
    TextSingle(x + y);
    RegroupFour(TextOf(init), x, y, TextOf(tail));
  }

  lemma TextSingle(x: string)
    ensures TextOf([Text(x)]) == x
  {
    assert [Text(x)][1..] == [];
    assert x + "" == x;
  }

  // # Cleaning

  lemma {:induction false} KeptAttrsProperties(tag: string, attrs: seq<Attr>)
    ensures forall a :: a in KeptAttrs(tag, attrs) ==> a.key == Lower(a.key) && AttrAllowed(tag, a.key, a.val)
    ensures RenderAttrs(tag, KeptAttrs(tag, attrs)) == RenderAttrs(tag, attrs)
    ensures (forall a :: a in KeptAttrs(tag, attrs) ==> ReadableKey(a.key)) <==>
            (forall a :: a in attrs && AttrAllowed(tag, Lower(a.key), a.val) ==> ReadableKey(Lower(a.key)))
  {
    hide AttrAllowed, Lower, ReadableKey;
    if attrs != [] {
      KeptAttrsProperties(tag, attrs[1..]);
      var kept := KeptAttrs(tag, attrs);
      var a := Attr(Lower(attrs[0].key), attrs[0].val);
      LowerIdempotent(attrs[0].key);
      assert attrs == [attrs[0]] + attrs[1..];
      if AttrAllowed(tag, a.key, a.val) {
        assert kept[0] == a && kept[1..] == KeptAttrs(tag, attrs[1..]);
      } else {
        assert kept == KeptAttrs(tag, attrs[1..]);
      }
    }
  }

  lemma {:induction false} CleanIsSafe(ns: seq<Node>)
    ensures Safe(Clean(ns))
    decreases ns, 0
  {
    if ns != [] {
      CleanNodeIsSafe(ns[0]);
      CleanIsSafe(ns[1..]);
      SafeJoin(CleanNode(ns[0]), Clean(ns[1..]));
    }
  }

  lemma {:induction false} CleanNodeIsSafe(n: Node)
    ensures Safe(CleanNode(n))
    decreases n, 1
  {
    hide IsAllowed, IsVoid, AttrAllowed, Lower, RenderAttrs, KeptAttrs;
    match n
    case Text(_) =>
    case Other(children) => CleanIsSafe(children);
    case Element(t, attrs, children) =>
      var tag := Lower(t);
      CleanIsSafe(children);
      if IsAllowed(tag) {
        KeptAttrsProperties(tag, attrs);
        LowerIdempotent(t);
        var e := Element(tag, KeptAttrs(tag, attrs), if IsVoid(tag) then [] else Clean(children));
        assert SafeNode(e) && [e][1..] == [];
        assert Safe([e]);
        if IsVoid(tag) {
          SafeJoin([e], Clean(children));
        }
      }
  }

  lemma {:induction false} CleanRenders(ns: seq<Node>)
    ensures RenderAll(Clean(ns)) == RenderAll(ns)
    decreases ns, 0
  {
    if ns != [] {
      CleanNodeRenders(ns[0]);
      CleanRenders(ns[1..]);
      RenderJoin(CleanNode(ns[0]), Clean(ns[1..]));
    }
  }

  lemma {:induction false} CleanNodeRenders(n: Node)
    ensures RenderAll(CleanNode(n)) == Render(n)
    decreases n, 1
  {
    hide IsAllowed, IsVoid, AttrAllowed, Lower, RenderAttrs, KeptAttrs;
    match n
    case Text(_) => RenderSingle(n);
    case Other(children) => CleanRenders(children);
    case Element(t, attrs, children) =>
      var tag := Lower(t);
      CleanRenders(children);
      if IsAllowed(tag) {
        KeptAttrsProperties(tag, attrs);
        LowerIdempotent(t);
        var kept := KeptAttrs(tag, attrs);
        if IsVoid(tag) {
          var e := Element(tag, kept, []);
          RenderJoin([e], Clean(children));
          RenderSingle(e);
          assert Render(e) == "<" + tag + RenderAttrs(tag, attrs) + ">";
        } else {
          RenderSingle(Element(tag, kept, Clean(children)));
        }
      }
  }

  lemma {:induction false} CleanKeepsReadable(ns: seq<Node>)
    ensures ReadableKeys(Clean(ns)) <==> ReadableKeys(ns)
    decreases ns, 0
  {
    if ns != [] {
      CleanNodeKeepsReadable(ns[0]);
      CleanKeepsReadable(ns[1..]);
      ReadableJoin(CleanNode(ns[0]), Clean(ns[1..]));
    }
  }

  lemma {:induction false} CleanNodeKeepsReadable(n: Node)
    ensures ReadableKeys(CleanNode(n)) <==> NodeReadable(n)
    decreases n, 1
  {
    hide IsAllowed, IsVoid, AttrAllowed, Lower, RenderAttrs, KeptAttrs;
    match n
    case Text(_) =>
    case Other(children) => CleanKeepsReadable(children);
    case Element(t, attrs, children) =>
      var tag := Lower(t);
      CleanKeepsReadable(children);
      if IsAllowed(tag) {
        KeptAttrsProperties(tag, attrs);
        LowerIdempotent(t);
        var kept := KeptAttrs(tag, attrs);
        forall a | a in kept ensures AttrAllowed(tag, Lower(a.key), a.val) && Lower(a.key) == a.key {
        }
        var e := Element(tag, kept, if IsVoid(tag) then [] else Clean(children));
        assert [e][1..] == [];
        assert NodeReadable(e) <==> ReadableKeys(e.children) && (forall a :: a in kept ==> ReadableKey(a.key));
        assert ReadableKeys([e]) <==> NodeReadable(e);
        if IsVoid(tag) {
          ReadableJoin([e], Clean(children));
        }
      }
  }

  /** Sanitizing keeps every character of text, in document order. */
  lemma {:induction false} CleanKeepsText(ns: seq<Node>)
    ensures TextOf(Clean(ns)) == TextOf(ns)
    decreases ns, 0
  {
    if ns != [] {
      CleanNodeKeepsText(ns[0]);
      CleanKeepsText(ns[1..]);
      TextJoin(CleanNode(ns[0]), Clean(ns[1..]));
      assert [ns[0]][1..] == [];
      assert TextOf([ns[0]]) + "" == TextOf([ns[0]]);
      TextConcat([ns[0]], ns[1..]);
      assert [ns[0]] + ns[1..] == ns;
    }
  }

  lemma {:induction false} CleanNodeKeepsText(n: Node)
    ensures TextOf(CleanNode(n)) == TextOf([n])
    decreases n, 1
  {
    assert [n][1..] == [];
    match n
    case Text(data) => assert data + "" == data;
    case Other(children) =>
      CleanKeepsText(children);
      assert TextOf(children) + "" == TextOf(children);
    case Element(t, attrs, children) =>
      var tag := Lower(t);
      CleanKeepsText(children);
      assert TextOf(children) + "" == TextOf(children);
      if IsAllowed(tag) {
        if IsVoid(tag) {
          var e := Element(tag, KeptAttrs(tag, attrs), []);
          assert [e][1..] == [] && TextOf([e]) == "";
          TextJoin([e], Clean(children));
          assert "" + TextOf(children) == TextOf(children);
        } else {
          var e := Element(tag, KeptAttrs(tag, attrs), Clean(children));
          assert [e][1..] == [];
        }
      }
  }

  // # Reading back

  lemma {:induction false} UntilConcat(a: string, b: string, stop: set<char>)
    requires forall c :: c in a ==> c !in stop
    requires b == "" || b[0] in stop
    ensures Until(a + b, stop) == |a|
  {
    if a == "" {
      assert a + b == b;
    } else {
      assert a[0] in a && (a + b)[1..] == a[1..] + b;
      forall c | c in a[1..] ensures c !in stop {
        assert c in a;
      }
      UntilConcat(a[1..], b, stop);
    }
  }

  lemma EscapedKeyIsName(key: string)
    requires ReadableKey(key)
    ensures Escape(key) != ""
    ensures forall c :: c in Escape(key) ==> c !in NAME_DELIMITERS + {'>', '"'}
  {
    EscapeShape(key);
  }

  lemma SplitAt(a: string, mark: string, b: string)
    ensures var s := a + (mark + b); s[..|a|] == a && HasPrefix(s[|a|..], mark) && s[|a| + |mark|..] == b
  {
    var s := a + (mark + b);
    assert s[|a|..] == mark + b;
    assert s[|a|..][..|mark|] == mark;
  }

  /** What the attribute reader does, given how its name and its value decode. */
  lemma ReadAttrParts(s: string, t: string, n: nat, m: nat, key: string, val: string)
    requires 0 < n == Until(s, NAME_DELIMITERS + {'>', '"'}) && Decode(s[..n]) == Some(key)
    requires HasPrefix(s[n..], "=\"") && t == s[n + 2..]
    requires m == Until(t, {'"'}) < |t| && Decode(t[..m]) == Some(val)
    ensures ReadAttr(s) == Ok(Attr(key, val), t[m + 1..])
  {
    hide Decode, Until;
  }

  lemma RenderAttrShape(key: string, val: string, rest: string)
    ensures RenderAttr(key, val)[1..] + rest == Escape(key) + ("=\"" + (Escape(val) + ("\"" + rest)))
  {
    hide Escape;
  }

  lemma ReadAttrBack(key: string, val: string, rest: string)
    requires ReadableKey(key)
    ensures ReadAttr(RenderAttr(key, val)[1..] + rest) == Ok(Attr(key, val), rest)
  {
    hide Escape, Decode, ReadAttr, Until, HasPrefix;
    var k, v := Escape(key), Escape(val);
    var t := v + ("\"" + rest);
    var s := k + ("=\"" + t);
    RenderAttrShape(key, val, rest);
    hide RenderAttr;
    EscapedKeyIsName(key);
    UntilConcat(k, "=\"" + t, NAME_DELIMITERS + {'>', '"'});
    SplitAt(k, "=\"", t);
    EscapeShape(val);
    UntilConcat(v, "\"" + rest, {'"'});
    SplitAt(v, "\"", rest);
    DecodeEscape(key);
    DecodeEscape(val);
    hide ReadableKey;
    ReadAttrParts(s, t, |k|, |v|, key, val);
  }

  lemma RenderAttrHead(key: string, val: string)
    ensures RenderAttr(key, val) != "" && RenderAttr(key, val)[0] == ' '
  {
  }

  lemma {:induction false} ReadAttrsBack(tag: string, attrs: seq<Attr>, rest: string)
    requires forall a :: a in attrs ==> a.key == Lower(a.key) && AttrAllowed(tag, a.key, a.val) && ReadableKey(a.key)
    requires rest != "" && rest[0] != ' '
    ensures ReadAttrs(RenderAttrs(tag, attrs) + rest) == Ok(attrs, rest)
  {
    hide AttrAllowed, Lower, Escape, ReadAttr, RenderAttr;
    if attrs == [] {
      assert "" + rest == rest;
    } else {
      var a, more := attrs[0], RenderAttrs(tag, attrs[1..]) + rest;
      var s := RenderAttrs(tag, attrs) + rest;
      assert a in attrs;
      Regroup(RenderAttr(a.key, a.val), RenderAttrs(tag, attrs[1..]), rest);
      RenderAttrHead(a.key, a.val);
      assert s[0] == ' ' && s[1..] == RenderAttr(a.key, a.val)[1..] + more;
      ReadAttrBack(a.key, a.val, more);
      forall b | b in attrs[1..] ensures b in attrs {
      }
      ReadAttrsBack(tag, attrs[1..], rest);
      assert [a] + attrs[1..] == attrs;
    }
  }

  lemma ReadStartTag(tag: string, attrs: seq<Attr>, rest: string)
    requires IsAllowed(tag)
    requires forall a :: a in attrs ==> a.key == Lower(a.key) && AttrAllowed(tag, a.key, a.val) && ReadableKey(a.key)
    ensures var s := tag + (RenderAttrs(tag, attrs) + (">" + rest));
            var n := Until(s, {' ', '>'});
            s[..n] == tag && ReadAttrs(s[n..]) == Ok(attrs, ">" + rest)
  {
    AllowedNamesArePlain(tag);
    var more := RenderAttrs(tag, attrs) + (">" + rest);
    ReadAttrsBack(tag, attrs, ">" + rest);
    AttrsStart(tag, attrs, rest);
    forall c | c in tag ensures c !in {' ', '>'} {
    }
    UntilConcat(tag, more, {' ', '>'});
    assert (tag + more)[..|tag|] == tag && (tag + more)[|tag|..] == more;
  }

  lemma {:induction false} AttrsStart(tag: string, attrs: seq<Attr>, rest: string)
    ensures (RenderAttrs(tag, attrs) + (">" + rest))[0] in {' ', '>'}
  {
    if attrs != [] {
      AttrsStart(tag, attrs[1..], rest);
      var key := Lower(attrs[0].key);
      if AttrAllowed(tag, key, attrs[0].val) {
        assert RenderAttr(key, attrs[0].val)[0] == ' ';
      } else {
        assert RenderAttrs(tag, attrs) == RenderAttrs(tag, attrs[1..]);
      }
    }
  }

  lemma RegroupElement(tag: string, attrText: string, body: string, close: string, rest: string)
    ensures "<" + tag + attrText + ">" + body + close + rest
            == "<" + (tag + (attrText + (">" + (body + (close + rest)))))
  {
  }

  lemma RenderElement(n: Node, rest: string)
    requires n.Element? && IsAllowed(n.tag) && n.tag == Lower(n.tag)
    ensures Render(n) != "" && Render(n)[0] == '<'
    ensures var close := if IsVoid(n.tag) then "" else "</" + n.tag + ">";
            Render(n) + rest == "<" + (n.tag + (RenderAttrs(n.tag, n.attrs)
                                       + (">" + (RenderAll(n.children) + (close + rest)))))
  {
    hide IsAllowed, IsVoid, Lower, Escape, RenderAttrs;
    var close := if IsVoid(n.tag) then "" else "</" + n.tag + ">";
    RegroupElement(n.tag, RenderAttrs(n.tag, n.attrs), RenderAll(n.children), close, rest);
  }

  /** What the element reader does on a rendered start tag, given how its content reads. */
  lemma ReadElementParts(tag: string, attrs: seq<Attr>, s: string, inner: string)
    requires IsAllowed(tag)
    requires forall a :: a in attrs ==> a.key == Lower(a.key) && AttrAllowed(tag, a.key, a.val) && ReadableKey(a.key)
    requires s == "<" + (tag + (RenderAttrs(tag, attrs) + (">" + inner)))
    ensures IsVoid(tag) ==> ReadElement(s) == Ok(Element(tag, attrs, []), inner)
    ensures !IsVoid(tag) && ReadForest(inner).Ok? && HasPrefix(ReadForest(inner).rest, "</" + tag + ">") ==>
              ReadElement(s) == Ok(Element(tag, attrs, ReadForest(inner).value), ReadForest(inner).rest[|tag| + 3..])
  {
    hide IsAllowed, IsVoid, AttrAllowed, RenderAttrs, Lower, ReadForest;
    ReadStartTag(tag, attrs, inner);
    AllowedNamesArePlain(tag);
    assert s[1..] == tag + (RenderAttrs(tag, attrs) + (">" + inner));
    assert (">" + inner)[1..] == inner && HasPrefix(">" + inner, ">");
  }

  lemma PrefixAt(s: string, prefix: string, i: nat)
    requires i < |prefix| && i < |s|
    ensures HasPrefix(s, prefix) ==> s[i] == prefix[i]
  {
    if HasPrefix(s, prefix) {
      assert s[..|prefix|][i] == s[i];
    }
  }

  lemma NotAnEndTag(tag: string, more: string)
    requires PlainName(tag)
    ensures !HasPrefix("<" + (tag + more), "</")
  {
    assert tag[0] in tag;
    assert ("<" + (tag + more))[1] == tag[0];
    PrefixAt("<" + (tag + more), "</", 1);
  }

  lemma CloseTag(tag: string, rest: string)
    ensures var close := "</" + tag + ">";
            && HasPrefix(close + rest, "</") && HasPrefix(close + rest, close)
            && (close + rest)[|tag| + 3..] == rest
  {
    var tail := "</" + tag + ">" + rest;
    assert tail[..2] == "</" && tail[..|tag| + 3] == "</" + tag + ">";
  }

  lemma {:induction false} ReadElementBack(n: Node, rest: string)
    requires n.Element? && SafeNode(n) && NodeReadable(n)
    ensures Render(n) != "" && Render(n)[0] == '<'
    ensures !HasPrefix(Render(n) + rest, "</")
    ensures ReadElement(Render(n) + rest) == Ok(n, rest)
    decreases n, 1
  {
    var Element(tag, attrs, children) := n;
    hide IsAllowed, IsVoid, AttrAllowed, RenderAttrs, Lower, Escape, ReadElement, ReadForest, PlainName, Render;
    var attrText, body := RenderAttrs(tag, attrs), RenderAll(children);
    var close := if IsVoid(tag) then "" else "</" + tag + ">";
    var inner := body + (close + rest);
    var s := "<" + (tag + (attrText + (">" + inner)));
    RenderElement(n, rest);
    AllowedNamesArePlain(tag);
    NotAnEndTag(tag, attrText + (">" + inner));
    forall a | a in attrs ensures ReadableKey(a.key) {
      assert Lower(a.key) == a.key;
    }
    ReadElementParts(tag, attrs, s, inner);
    if IsVoid(tag) {
      assert inner == rest;
    } else {
      CloseTag(tag, rest);
      ReadForestBack(children, close + rest);
    }
  }

  /** Up to the end of the input or an end tag, the reader returns exactly the safe forest
      that was printed. */
  lemma {:induction false} ReadForestBack(ns: seq<Node>, rest: string)
    requires Safe(ns) && ReadableKeys(ns)
    requires rest == "" || HasPrefix(rest, "</")
    ensures ReadForest(RenderAll(ns) + rest) == Ok(ns, rest)
    decreases ns, 0
  {
    hide IsAllowed, IsVoid, AttrAllowed, RenderAttrs, Render, Escape, ReadElement, Until, Decode;
    if ns == [] {
      assert "" + rest == rest;
    } else {
      var more := RenderAll(ns[1..]) + rest;
      assert RenderAll(ns) + rest == Render(ns[0]) + more;
      ReadForestBack(ns[1..], rest);
      assert [ns[0]] + ns[1..] == ns;
      match ns[0]
      case Element(_, _, _) =>
        ReadElementBack(ns[0], more);
      case Text(data) =>
        StartsWithBracket(ns[1..], rest);
        RenderText(data);
        ReadTextBack(data, more);
    }
  }

  lemma RenderText(data: string)
    ensures Render(Text(data)) == Escape(data)
  {
  }

  lemma ReadTextBack(data: string, more: string)
    requires data != "" && (more == "" || more[0] == '<')
    requires ReadForest(more).Ok?
    ensures ReadForest(Escape(data) + more) == Ok([Text(data)] + ReadForest(more).value, ReadForest(more).rest)
  {
    hide Escape;
    var e := Escape(data);
    EscapeShape(data);
    DecodeEscape(data);
    UntilConcat(e, more, {'<'});
    assert (e + more)[..|e|] == e && (e + more)[|e|..] == more;
    assert e[0] in e && (e + more)[0] == e[0];
    PrefixAt(e + more, "</", 0);
  }

  lemma StartsWithBracket(ns: seq<Node>, rest: string)
    requires Safe(ns) && ReadableKeys(ns)
    requires ns != [] ==> !ns[0].Text?
    requires rest == "" || HasPrefix(rest, "</")
    ensures RenderAll(ns) + rest == "" || (RenderAll(ns) + rest)[0] == '<'
  {
    if ns == [] {
      assert "" + rest == rest;
      assert rest != "" ==> rest[..2][0] == '<';
    } else {
      assert Render(ns[0])[0] == '<';
    }
  }

  // # What the reader can return

  lemma {:induction false} DecodeChars(s: string)
    ensures Decode(s).Some? && s != "" ==> Decode(s).value != ""
    ensures Decode(s).Some? ==> forall c :: c in Decode(s).value ==> c in s || IsSpecial(c)
  {
    if s != "" && Decode(s).Some? {
      if s[0] == '&' {
        var e := EntityAt(s).value;
        DecodeChars(s[e.1..]);
      } else {
        DecodeChars(s[1..]);
      }
    }
  }

  lemma ReadAttrName(s: string)
    requires ReadAttr(s).Ok?
    ensures ReadableKey(ReadAttr(s).value.key)
  {
    var n := Until(s, NAME_DELIMITERS + {'>', '"'});
    UntilFree(s, NAME_DELIMITERS, {'>', '"'});
    assert forall c :: IsSpecial(c) ==> c !in NAME_DELIMITERS;
    hide Until, Decode, NAME_DELIMITERS, IsSpecial;
    DecodeChars(s[..n]);
  }

  lemma UntilFree(s: string, stop: set<char>, more: set<char>)
    ensures forall c :: c in s[..Until(s, stop + more)] ==> c !in stop
  {
  }

  lemma {:induction false} ReadAttrsNames(s: string)
    requires ReadAttrs(s).Ok?
    ensures forall a :: a in ReadAttrs(s).value ==> ReadableKey(a.key)
    decreases |s|
  {
    if s != "" && s[0] == ' ' {
      ReadAttrName(s[1..]);
      ReadAttrsNames(ReadAttr(s[1..]).rest);
    }
  }

  lemma {:induction false} ReadForestNames(s: string)
    requires ReadForest(s).Ok?
    ensures RawReadable(ReadForest(s).value)
    decreases |s|, 1
  {
    if s == "" || HasPrefix(s, "</") {
    } else if s[0] == '<' {
      ReadElementNames(s);
      ReadForestNames(ReadElement(s).rest);
      assert ReadForest(s).value[1..] == ReadForest(ReadElement(s).rest).value;
    } else {
      var n := Until(s, {'<'});
      ReadForestNames(s[n..]);
      assert ReadForest(s).value[1..] == ReadForest(s[n..]).value;
    }
  }

  lemma {:induction false} ReadElementNames(s: string)
    requires s != "" && ReadElement(s).Ok?
    ensures RawReadableNode(ReadElement(s).value)
    decreases |s|, 0
  {
    var n := Until(s[1..], {' ', '>'});
    var attrs := ReadAttrs(s[1..][n..]);
    ReadAttrsNames(s[1..][n..]);
    if !IsVoid(s[1..][..n]) {
      ReadForestNames(attrs.rest[1..]);
    }
  }

  /** Every attribute name in the forest, kept or not, is readable as it stands. */
  ghost predicate RawReadable(ns: seq<Node>)
    decreases ns, 0
  {
    ns != [] ==> RawReadableNode(ns[0]) && RawReadable(ns[1..])
  }

  ghost predicate RawReadableNode(n: Node)
    decreases n, 1
  {
    match n
    case Text(_) => true
    case Element(_, attrs, children) => RawReadable(children) && forall a :: a in attrs ==> ReadableKey(a.key)
    case Other(children) => RawReadable(children)
  }

  lemma {:induction false} SafeRawReadable(ns: seq<Node>)
    requires Safe(ns) && RawReadable(ns)
    ensures ReadableKeys(ns)
    decreases ns
  {
    if ns != [] {
      SafeRawReadable(ns[1..]);
      if ns[0].Element? {
        SafeRawReadable(ns[0].children);
      }
    }
  }

  // # Main results

  /** The printed forest reads back as exactly the cleaned forest, if and only if every
      written attribute name is one a reader can delimit. */
  lemma ReadsBackExactly(ns: seq<Node>)
    ensures ReadDocument(RenderAll(ns)) == Some(Clean(ns)) <==> ReadableKeys(ns)
  {
    CleanIsSafe(ns);
    CleanRenders(ns);
    CleanKeepsReadable(ns);
    assert RenderAll(ns) + "" == RenderAll(ns);
    if ReadableKeys(ns) {
      ReadForestBack(Clean(ns), "");
    } else if ReadDocument(RenderAll(ns)) == Some(Clean(ns)) {
      ReadForestNames(RenderAll(ns));
      SafeRawReadable(Clean(ns));
    }
  }

  /** The same for the entry point, whose fallback emits the whole input as one text. */
  lemma SanitizeReadsBack(input: string, parsed: Option<seq<Node>>)
    requires parsed.Some? ==> ReadableKeys(parsed.value)
    ensures var forest := if parsed.None? || parsed.value == [] then [Text(input)] else parsed.value;
            ReadDocument(SanitizeSpec(input, parsed)) == Some(Clean(forest)) && Safe(Clean(forest))
  {
    var forest := if parsed.None? || parsed.value == [] then [Text(input)] else parsed.value;
    if parsed.None? || parsed.value == [] {
      RenderSingle(Text(input));
      assert forest[1..] == [];
    }
    ReadsBackExactly(forest);
    CleanIsSafe(forest);
  }

  /** Sanitizing what was read back changes nothing. */
  lemma SanitizeIsFixedPoint(ns: seq<Node>)
    requires ReadableKeys(ns)
    ensures var again := ReadDocument(RenderAll(ns));
            again.Some? && RenderAll(again.value) == RenderAll(ns) && Clean(again.value) == again.value
  {
    ReadsBackExactly(ns);
    CleanRenders(ns);
    CleanIsSafe(ns);
    CleanOfSafe(Clean(ns));
  }

  lemma {:induction false} CleanOfSafe(ns: seq<Node>)
    requires Safe(ns)
    ensures Clean(ns) == ns
    decreases ns
  {
    hide Lower, AttrAllowed, KeptAttrs;
    if ns != [] {
      CleanOfSafe(ns[1..]);
      if ns[0].Element? {
        CleanOfSafe(ns[0].children);
        KeptOfAllowed(ns[0].tag, ns[0].attrs);
        assert Clean([]) == [];
        assert CleanNode(ns[0]) == [ns[0]];
      }
      assert [ns[0]] + ns[1..] == ns;
    }
  }

  lemma {:induction false} KeptOfAllowed(tag: string, attrs: seq<Attr>)
    requires forall a :: a in attrs ==> a.key == Lower(a.key) && AttrAllowed(tag, a.key, a.val)
    ensures KeptAttrs(tag, attrs) == attrs
  {
    if attrs != [] {
      assert attrs[0] in attrs;
      forall a | a in attrs[1..] ensures a in attrs {
      }
      KeptOfAllowed(tag, attrs[1..]);
      assert [attrs[0]] + attrs[1..] == attrs;
    }
  }
}
