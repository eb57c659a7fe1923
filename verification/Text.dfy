/** Character- and string-level library calls used by the sanitizer: lower-casing,
    trimming and HTML entity escaping, with the decoder that undoes the escaping. */
module Text {
  import opened Wrappers

  ghost predicate StartsWith(s: string, prefix: string) {
    |prefix| <= |s| && s[..|prefix|] == prefix
  }

  predicate HasPrefix(s: string, prefix: string)
    ensures HasPrefix(s, prefix) == StartsWith(s, prefix)
  {
    |prefix| <= |s| && s[..|prefix|] == prefix
  }

  /** Go's rune-wise lower-casing, exact on every rune whose image is ASCII:
      A-Z, and the two non-ASCII runes U+0130 and U+212A. */
  function LowerChar(c: char): char {
    if 'A' <= c <= 'Z' then c - 'A' + 'a'
    else if c == '\U{0130}' then 'i'
    else if c == '\U{212A}' then 'k'
    else c
  }

  function Lower(s: string): (r: string)
    ensures |r| == |s|
    ensures forall i :: 0 <= i < |s| ==> r[i] == LowerChar(s[i])
  {
    if s == "" then "" else [LowerChar(s[0])] + Lower(s[1..])
  }

  /** Lower-casing is idempotent, so a sanitized name is already in its final form. */
  lemma LowerIdempotent(s: string)
    ensures Lower(Lower(s)) == Lower(s)
  {
    forall i | 0 <= i < |s| ensures LowerChar(LowerChar(s[i])) == LowerChar(s[i]) {
    }
  }

  predicate IsSpace(c: char) {
    c == '\t' || c == '\n' || c == '\U{000B}' || c == '\U{000C}' || c == '\r' || c == ' ' ||
    c == '\U{0085}' || c == '\U{00A0}' || c == '\U{1680}' || '\U{2000}' <= c <= '\U{200A}' ||
    c == '\U{2028}' || c == '\U{2029}' || c == '\U{202F}' || c == '\U{205F}' || c == '\U{3000}'
  }

  function TrimLeft(s: string): string {
    if s != "" && IsSpace(s[0]) then TrimLeft(s[1..]) else s
  }

  function TrimRight(s: string): string {
    if s != "" && IsSpace(s[|s| - 1]) then TrimRight(s[..|s| - 1]) else s
  }

  function TrimSpace(s: string): string {
    TrimRight(TrimLeft(s))
  }

  /** The six characters golang.org/x/net/html escapes. */
  predicate IsSpecial(c: char) {
    c == '&' || c == '\'' || c == '<' || c == '>' || c == '"' || c == '\r'
  }

  function EscapeChar(c: char): string {
    match c
    case '&' => "&amp;"
    case '\'' => "&#39;"
    case '<' => "&lt;"
    case '>' => "&gt;"
    case '"' => "&#34;"
    case '\r' => "&#13;"
    case _ => [c]
  }

  function Escape(s: string): string {
    if s == "" then "" else EscapeChar(s[0]) + Escape(s[1..])
  }

  lemma Regroup(a: string, b: string, c: string)
    ensures a + b + c == a + (b + c)
  {
  }

  lemma {:induction false} EscapeConcat(a: string, b: string)
    ensures Escape(a + b) == Escape(a) + Escape(b)
  {
    hide EscapeChar;
    if a == "" {
      assert a + b == b;
    } else {
      EscapeConcat(a[1..], b);
      assert (a + b)[1..] == a[1..] + b;
      Regroup(EscapeChar(a[0]), Escape(a[1..]), Escape(b));
    }
  }

  /** The entity at the head of s, as the character it stands for and its length. */
  function EntityAt(s: string): (r: Option<(char, nat)>)
    ensures r.Some? ==> 1 <= r.value.1 <= |s|
  {
    if HasPrefix(s, "&amp;") then Some(('&', 5))
    else if HasPrefix(s, "&#39;") then Some(('\'', 5))
    else if HasPrefix(s, "&lt;") then Some(('<', 4))
    else if HasPrefix(s, "&gt;") then Some(('>', 4))
    else if HasPrefix(s, "&#34;") then Some(('"', 5))
    else if HasPrefix(s, "&#13;") then Some(('\r', 5))
    else None
  }

  /** Strict entity decoding: a special character may only appear through its entity. */
  function Decode(s: string): Option<string> {
    if s == "" then Some("")
    else if s[0] == '&' then
      var e := EntityAt(s);
      if e.None? then None else
      var t := Decode(s[e.value.1..]);
      if t.None? then None else Some([e.value.0] + t.value)
    else if IsSpecial(s[0]) then None
    else
      var t := Decode(s[1..]);
      if t.None? then None else Some([s[0]] + t.value)
  }

  lemma EntityAtEscape(c: char, rest: string)
    requires IsSpecial(c)
    ensures EscapeChar(c)[0] == '&'
    ensures EntityAt(EscapeChar(c) + rest) == Some((c, |EscapeChar(c)|))
  {
    var s := EscapeChar(c) + rest;
    assert s[..|EscapeChar(c)|] == EscapeChar(c);
    match c
    case '&' =>
    case '\'' => assert s[1] == '#';
    case '<' => assert s[1] == 'l';
    case '>' => assert s[1] == 'g';
    case '"' => assert s[1] == '#' && s[2] == '3' && s[3] == '4';
    case '\r' => assert s[1] == '#' && s[2] == '1';
  }

  /** Decoding the escape of one character and then some more text. */
  lemma DecodeStep(c: char, rest: string)
    requires Decode(rest).Some?
    ensures Decode(EscapeChar(c) + rest) == Some([c] + Decode(rest).value)
  {
    var e := EscapeChar(c) + rest;
    if IsSpecial(c) {
      EntityAtEscape(c, rest);
      assert e[0] == '&' && e[|EscapeChar(c)|..] == rest;
    } else {
      assert EscapeChar(c) == [c];
      assert e[0] == c && e[1..] == rest;
    }
  }

  lemma {:induction false} DecodeEscape(s: string)
    ensures Decode(Escape(s)) == Some(s)
  {
    if s != "" {
      DecodeEscape(s[1..]);
      DecodeStep(s[0], Escape(s[1..]));
      assert s == [s[0]] + s[1..];
    }
  }

  lemma EscapeCharShape(c: char)
    ensures EscapeChar(c) != ""
    ensures forall i :: 0 <= i < |EscapeChar(c)| ==> EscapeChar(c)[i] !in {'<', '>', '"'}
    ensures forall i :: 0 <= i < |EscapeChar(c)| ==>
              EscapeChar(c)[i] in {'=', '/', ' ', '\t', '\n', '\U{000C}'} ==> EscapeChar(c)[i] == c
  {
  }

  /** Escaped text never contains a raw bracket or double quote, and every delimiter
      of an attribute name in it was one in the source. */
  lemma {:induction false} EscapeShape(s: string)
    ensures (Escape(s) == "") == (s == "")
    ensures forall c :: c in Escape(s) ==> c !in {'<', '>', '"'}
    ensures forall c :: c in Escape(s) && c in {'=', '/', ' ', '\t', '\n', '\U{000C}'} ==> c in s
  {
    if s != "" {
      EscapeShape(s[1..]);
      EscapeCharShape(s[0]);
      assert s == [s[0]] + s[1..];
      forall c | c in Escape(s)
        ensures c !in {'<', '>', '"'}
        ensures c in {'=', '/', ' ', '\t', '\n', '\U{000C}'} ==> c in s
      {
        if c in EscapeChar(s[0]) {
          var i :| 0 <= i < |EscapeChar(s[0])| && EscapeChar(s[0])[i] == c;
        } else {
          assert c in Escape(s[1..]);
        }
      }
    }
  }

  // # The library calls, character by character

  /** The capital letters, of code points 65 to 90, become the small ones, 32 further on; the two
      other runes whose lower case is an ASCII letter become that; everything else stays. */
  lemma LowerMeans(s: string, i: nat)
    requires i < |s|
    ensures 65 <= s[i] as int <= 90 ==> Lower(s)[i] as int == s[i] as int + 32
    ensures s[i] as int == 0x130 ==> Lower(s)[i] == 'i'
    ensures s[i] as int == 0x212A ==> Lower(s)[i] == 'k'
    ensures !(65 <= s[i] as int <= 90) && s[i] as int != 0x130 && s[i] as int != 0x212A ==> Lower(s)[i] == s[i]
  {
  }

  const BLANKS: string :=
    "\t\n\U{000B}\U{000C}\r \U{0085}\U{00A0}\U{1680}\U{2000}\U{2001}\U{2002}\U{2003}\U{2004}\U{2005}\U{2006}" +
    "\U{2007}\U{2008}\U{2009}\U{200A}\U{2028}\U{2029}\U{202F}\U{205F}\U{3000}"

  lemma BlanksAreSpaces(c: char)
    ensures IsSpace(c) <==> c in BLANKS
  {
  }

  /** Trimming takes blanks off both ends, and as many as there are. */
  lemma TrimMeans(s: string) returns (before: string, after: string)
    ensures s == before + TrimSpace(s) + after
    ensures forall c :: c in before + after ==> c in BLANKS
    ensures var t := TrimSpace(s); t != "" ==> t[0] !in BLANKS && t[|t| - 1] !in BLANKS
  {
    hide IsSpace, BLANKS;
    before := TrimLeftMeans(s);
    after := TrimRightMeans(TrimLeft(s));
    var t := TrimSpace(s);
    assert TrimLeft(s) == t + after && s == before + (t + after);
    if t != "" {
      BlanksAreSpaces(TrimLeft(s)[0]);
      assert t[0] == TrimLeft(s)[0];
    }
  }

  lemma {:induction false} TrimLeftMeans(s: string) returns (before: string)
    ensures s == before + TrimLeft(s) && forall c :: c in before ==> c in BLANKS
    ensures TrimLeft(s) != "" ==> TrimLeft(s)[0] !in BLANKS
  {
    hide IsSpace, BLANKS;
    before := "";
    if s != "" {
      BlanksAreSpaces(s[0]);
      if IsSpace(s[0]) {
        var rest := TrimLeftMeans(s[1..]);
        before := [s[0]] + rest;
      }
    }
  }

  lemma {:induction false} TrimRightMeans(s: string) returns (after: string)
    ensures s == TrimRight(s) + after && forall c :: c in after ==> c in BLANKS
    ensures TrimRight(s) != "" ==> TrimRight(s)[|TrimRight(s)| - 1] !in BLANKS
  {
    hide IsSpace, BLANKS;
    after := "";
    if s != "" {
      BlanksAreSpaces(s[|s| - 1]);
      if IsSpace(s[|s| - 1]) {
        var rest := TrimRightMeans(s[..|s| - 1]);
        after := rest + [s[|s| - 1]];
      }
    }
  }

  /** Escaping, one character at a time: six have an entity, the others stand for themselves. */
  lemma EscapeMeans(c: char, s: string)
    ensures Escape("") == ""
    ensures Escape([c] + s) ==
            (if c == '&' then "&amp;" else if c == '<' then "&lt;" else if c == '>' then "&gt;"
             else if c == '"' then "&#34;" else if c == '\'' then "&#39;" else if c == '\r' then "&#13;"
             else [c]) + Escape(s)
  {
    assert ([c] + s)[1..] == s;
  }
}
