/** The correlation filter language of internal/correlation/filter.go: conversion,
    validation, compilation to sets, and the matcher over the compiled form. */
module Filter {
  import opened Wrappers
  import opened Events

  datatype SetFilter = SetFilter(included: seq<string>, excluded: seq<string>)

  /** A Go slice of children: nil, or a list that may be empty. */
  datatype Children = Unset | Listed(nodes: seq<FilterNode>)

  datatype FilterNode = FilterNode(
    senderID: Option<SetFilter>,
    roomID: Option<SetFilter>,
    eventType: Option<SetFilter>,
    inReplyTo: string,
    bodyRegex: string,
    reactionKey: string,
    relatesTo: string,
    hasAttachment: Option<bool>,
    minTimestamp: int,
    maxTimestamp: int,
    allOf: Children,
    anyOf: Children,
    negated: Option<FilterNode>)

  const EMPTY: FilterNode :=
    FilterNode(None, None, None, "", "", "", "", None, 0, 0, Unset, Unset, None)

  function Nodes(c: Children): seq<FilterNode> {
    if c.Listed? then c.nodes else []
  }

  /** The regexp package: which patterns compile, and what a compiled pattern matches. */
  datatype Regexp = Regexp(compiles: string -> bool, matches: (string, string) -> bool)

  datatype FilterError = EmptyAllOf | EmptyAnyOf | BadRegex(pattern: string) | BadWindow | EmptySet

  // # Conversion from the API shape

  /** API trees and correlation trees have the same fields; conversion rebuilds the child
      lists by appending, so an empty list comes out nil. */
  function Convert(f: FilterNode): FilterNode
    decreases f, 1
  {
    f.(allOf := ConvertChildren(f.allOf),
       anyOf := ConvertChildren(f.anyOf),
       negated := if f.negated.Some? then Some(Convert(f.negated.value)) else None)
  }

  function ConvertChildren(c: Children): Children
    decreases c, 0
  {
    if c.Unset? || c.nodes == [] then Unset else Listed(ConvertAll(c.nodes))
  }

  function ConvertAll(fs: seq<FilterNode>): (r: seq<FilterNode>)
    ensures |r| == |fs|
    decreases fs, 0
  {
    if fs == [] then [] else [Convert(fs[0])] + ConvertAll(fs[1..])
  }

  method RequestFilterToCorrelation(f: FilterNode) returns (n: FilterNode)
    ensures n == Convert(f)
    decreases f, 1
  {
    n := EMPTY.(inReplyTo := f.inReplyTo, bodyRegex := f.bodyRegex, reactionKey := f.reactionKey,
                relatesTo := f.relatesTo, hasAttachment := f.hasAttachment,
                minTimestamp := f.minTimestamp, maxTimestamp := f.maxTimestamp,
                senderID := f.senderID, roomID := f.roomID, eventType := f.eventType);
    var allOf := ConvertLoop(f.allOf);
    var anyOf := ConvertLoop(f.anyOf);
    n := n.(allOf := allOf, anyOf := anyOf);
    if f.negated.Some? {
      var cc := RequestFilterToCorrelation(f.negated.value);
      n := n.(negated := Some(cc));
    }
  }

  method ConvertLoop(c: Children) returns (out: Children)
    ensures out == ConvertChildren(c)
    decreases c, 0
  {
    out := Unset;
    if c.Listed? {
      for i := 0 to |c.nodes|
        invariant out.Listed? <==> i > 0
        invariant Nodes(out) + ConvertAll(c.nodes[i..]) == ConvertAll(c.nodes)
      {
        assert c.nodes[i..][0] == c.nodes[i] && c.nodes[i..][1..] == c.nodes[i + 1..];
        var cc := RequestFilterToCorrelation(c.nodes[i]);
        out := Listed(Nodes(out) + [cc]);
      }
      assert ConvertAll(c.nodes[|c.nodes|..]) == [];
    }
  }

  // # Validation

  function ValidateSet(f: Option<SetFilter>): Option<FilterError> {
    if f.Some? && f.value.included == [] && f.value.excluded == [] then Some(EmptySet) else None
  }

  function Validate(re: Regexp, n: FilterNode): Option<FilterError>
    decreases n, 1
  {
    if n.allOf == Listed([]) then Some(EmptyAllOf)
    else if n.anyOf == Listed([]) then Some(EmptyAnyOf)
    else if n.bodyRegex != "" && !re.compiles(n.bodyRegex) then Some(BadRegex(n.bodyRegex))
    else if n.minTimestamp != 0 && n.maxTimestamp != 0 && n.minTimestamp > n.maxTimestamp then Some(BadWindow)
    else if ValidateSet(n.senderID).Some? then ValidateSet(n.senderID)
    else if ValidateSet(n.roomID).Some? then ValidateSet(n.roomID)
    else if ValidateSet(n.eventType).Some? then ValidateSet(n.eventType)
    else
      var all := ValidateChildren(re, n.allOf);
      if all.Some? then all else
      var any := ValidateChildren(re, n.anyOf);
      if any.Some? then any else
      if n.negated.Some? then Validate(re, n.negated.value) else None
  }

  function ValidateChildren(re: Regexp, c: Children): Option<FilterError>
    decreases c, 0
  {
    if c.Unset? then None else ValidateAll(re, c.nodes)
  }

  function ValidateAll(re: Regexp, ns: seq<FilterNode>): Option<FilterError>
    decreases ns, 0
  {
    if ns == [] then None else
    var e := Validate(re, ns[0]);
    if e.Some? then e else ValidateAll(re, ns[1..])
  }

  // # Compilation

  datatype StringSet = StringSet(included: Option<set<string>>, excluded: Option<set<string>>) {
    predicate Active() {
      included.Some? || excluded.Some?
    }

    predicate Matches(v: string) {
      if excluded.Some? && v in excluded.value then false
      else if included.Some? && v !in included.value then false
      else true
    }
  }

  function SetOf(vs: seq<string>): set<string> {
    set v | v in vs
  }

  function CompileSet(f: Option<SetFilter>): StringSet {
    if f.None? then StringSet(None, None)
    else StringSet(
      if f.value.included == [] then None else Some(SetOf(f.value.included)),
      if f.value.excluded == [] then None else Some(SetOf(f.value.excluded)))
  }

  method NewStringSet(f: Option<SetFilter>) returns (ss: StringSet)
    ensures ss == CompileSet(f)
  {
    if f.None? {
      return StringSet(None, None);
    }
    ss := StringSet(None, None);
    if |f.value.included| > 0 {
      var m: set<string> := {};
      for i := 0 to |f.value.included|
        invariant m == SetOf(f.value.included[..i])
      {
        m := m + {f.value.included[i]};
      }
      assert f.value.included[..|f.value.included|] == f.value.included;
      ss := ss.(included := Some(m));
    }
    if |f.value.excluded| > 0 {
      var m: set<string> := {};
      for i := 0 to |f.value.excluded|
        invariant m == SetOf(f.value.excluded[..i])
      {
        m := m + {f.value.excluded[i]};
      }
      assert f.value.excluded[..|f.value.excluded|] == f.value.excluded;
      ss := ss.(excluded := Some(m));
    }
  }

  datatype CompiledNode = CompiledNode(
    senderID: StringSet,
    roomID: StringSet,
    eventType: StringSet,
    inReplyTo: string,
    bodyRegex: Option<string>,  // the compiled pattern
    reactionKey: string,
    relatesTo: string,
    hasAttachment: Option<bool>,
    minTimestamp: int,
    maxTimestamp: int,
    allOf: seq<CompiledNode>,
    anyOf: seq<CompiledNode>,
    negated: Option<CompiledNode>)

  function CompileNode(re: Regexp, n: FilterNode): Result<CompiledNode, FilterError>
    decreases n, 1
  {
    if n.bodyRegex != "" && !re.compiles(n.bodyRegex) then Failure(BadRegex(n.bodyRegex)) else
    var all := CompileChildren(re, n.allOf);
    if all.Failure? then Failure(all.error) else
    var any := CompileChildren(re, n.anyOf);
    if any.Failure? then Failure(any.error) else
    var neg := if n.negated.Some? then CompileNode(re, n.negated.value) else Failure(EmptySet);
    if n.negated.Some? && neg.Failure? then neg else
    Success(CompiledNode(
      CompileSet(n.senderID), CompileSet(n.roomID), CompileSet(n.eventType),
      n.inReplyTo, if n.bodyRegex == "" then None else Some(n.bodyRegex), n.reactionKey, n.relatesTo,
      n.hasAttachment, n.minTimestamp, n.maxTimestamp,
      all.value, any.value, if n.negated.Some? then Some(neg.value) else None))
  }

  function CompileChildren(re: Regexp, c: Children): Result<seq<CompiledNode>, FilterError>
    decreases c, 0
  {
    if c.Unset? then Success([]) else CompileAll(re, c.nodes)
  }

  function CompileAll(re: Regexp, ns: seq<FilterNode>): Result<seq<CompiledNode>, FilterError>
    decreases ns, 0
  {
    if ns == [] then Success([]) else
    var head := CompileNode(re, ns[0]);
    if head.Failure? then Failure(head.error) else
    Prepend([head.value], CompileAll(re, ns[1..]))
  }

  function Prepend<T, E>(done: seq<T>, rest: Result<seq<T>, E>): Result<seq<T>, E> {
    if rest.Success? then Success(done + rest.value) else rest
  }

  method Compile(re: Regexp, n: FilterNode) returns (r: Result<CompiledNode, FilterError>)
    ensures r == CompileNode(re, n)
    decreases n, 1
  {
    var senderID := NewStringSet(n.senderID);
    var roomID := NewStringSet(n.roomID);
    var eventType := NewStringSet(n.eventType);
    var cn := CompiledNode(senderID, roomID, eventType, n.inReplyTo, None, n.reactionKey, n.relatesTo,
                           n.hasAttachment, n.minTimestamp, n.maxTimestamp, [], [], None);
    if n.bodyRegex != "" {
      if !re.compiles(n.bodyRegex) {
        return Failure(BadRegex(n.bodyRegex));
      }
      cn := cn.(bodyRegex := Some(n.bodyRegex));
    }
    var all := CompileLoop(re, n.allOf);
    if all.Failure? {
      return Failure(all.error);
    }
    var any := CompileLoop(re, n.anyOf);
    if any.Failure? {
      return Failure(any.error);
    }
    cn := cn.(allOf := all.value, anyOf := any.value);
    if n.negated.Some? {
      var cc := Compile(re, n.negated.value);
      if cc.Failure? {
        return cc;
      }
      cn := cn.(negated := Some(cc.value));
    }
    return Success(cn);
  }

  method CompileLoop(re: Regexp, c: Children) returns (r: Result<seq<CompiledNode>, FilterError>)
    ensures r == CompileChildren(re, c)
    decreases c, 0
  {
    var out: seq<CompiledNode> := [];
    if c.Listed? {
      assert c.nodes[0..] == c.nodes;
      ghost var whole := CompileAll(re, c.nodes);
      assert whole.Success? ==> [] + whole.value == whole.value;
      for i := 0 to |c.nodes|
        invariant CompileAll(re, c.nodes) == Prepend(out, CompileAll(re, c.nodes[i..]))
      {
        assert c.nodes[i..][0] == c.nodes[i] && c.nodes[i..][1..] == c.nodes[i + 1..];
        var cc := Compile(re, c.nodes[i]);
        if cc.Failure? {
          return Failure(cc.error);
        }
        ghost var rest := CompileAll(re, c.nodes[i + 1..]);
        assert rest.Success? ==> out + ([cc.value] + rest.value) == out + [cc.value] + rest.value;
        out := out + [cc.value];
      }
      assert out + [] == out;
    }
    return Success(out);
  }

  /** newCompiledFilter: validate, then compile. A nil root compiles to a nil root. */
  function NewCompiledFilter(re: Regexp, root: Option<FilterNode>): Result<Option<CompiledNode>, FilterError> {
    if root.None? then Success(None) else
    var e := Validate(re, root.value);
    if e.Some? then Failure(e.value) else
    var cn := CompileNode(re, root.value);
    if cn.Failure? then Failure(cn.error) else Success(Some(cn.value))
  }

  // # Matching

  predicate FilterMatches(re: Regexp, root: Option<CompiledNode>, env: Envelope, accountID: string) {
    if env.accountID != accountID then false
    else if root.None? then true
    else MatchesEnvelope(re, root.value, env)
  }

  predicate MatchesEnvelope(re: Regexp, n: CompiledNode, env: Envelope)
    decreases n, 1
  {
    if n.roomID.Active() && !n.roomID.Matches(env.roomID) then false
    else if n.eventType.Active() && !n.eventType.Matches(env.eventType) then false
    else if !MatchesPayload(re, n, env.payload) then false
    else if !EveryMatches(re, n.allOf, env) then false
    else if n.anyOf != [] && !SomeMatches(re, n.anyOf, env) then false
    else !(n.negated.Some? && MatchesEnvelope(re, n.negated.value, env))
  }

  predicate EveryMatches(re: Regexp, ns: seq<CompiledNode>, env: Envelope)
    decreases ns, 0
  {
    if ns == [] then true
    else if !MatchesEnvelope(re, ns[0], env) then false
    else EveryMatches(re, ns[1..], env)
  }

  predicate SomeMatches(re: Regexp, ns: seq<CompiledNode>, env: Envelope)
    decreases ns, 0
  {
    if ns == [] then false
    else if MatchesEnvelope(re, ns[0], env) then true
    else SomeMatches(re, ns[1..], env)
  }

  predicate MatchesPayload(re: Regexp, n: CompiledNode, p: Payload) {
    match p
    case Message(_, sender, body, inReplyTo, attachment, timestamp) =>
      if n.senderID.Active() && !n.senderID.Matches(sender) then false
      else if n.inReplyTo != "" && inReplyTo != n.inReplyTo then false
      else if n.bodyRegex.Some? && !re.matches(n.bodyRegex.value, body) then false
      else if n.hasAttachment.Some? && n.hasAttachment.value != attachment.Some? then false
      else if n.reactionKey != "" then false
      else if n.relatesTo != "" then false
      else MatchesTimestamp(n, UnixMilli(timestamp))
    case Reaction(_, sender, relatesTo, key, timestamp) =>
      if n.senderID.Active() && !n.senderID.Matches(sender) then false
      else if n.reactionKey != "" && key != n.reactionKey then false
      else if n.relatesTo != "" && relatesTo != n.relatesTo then false
      else if n.inReplyTo != "" || n.bodyRegex.Some? || n.hasAttachment.Some? then false
      else MatchesTimestamp(n, UnixMilli(timestamp))
    case Edit(_, sender, relatesTo, newBody, timestamp) =>
      if n.senderID.Active() && !n.senderID.Matches(sender) then false
      else if n.bodyRegex.Some? && !re.matches(n.bodyRegex.value, newBody) then false
      else if n.relatesTo != "" && relatesTo != n.relatesTo then false
      else if n.inReplyTo != "" || n.reactionKey != "" || n.hasAttachment.Some? then false
      else MatchesTimestamp(n, UnixMilli(timestamp))
    case Redaction(_, sender, redacts, _, timestamp) =>
      if n.senderID.Active() && !n.senderID.Matches(sender) then false
      else if n.relatesTo != "" && redacts != n.relatesTo then false
      else if n.inReplyTo != "" || n.bodyRegex.Some? || n.reactionKey != "" || n.hasAttachment.Some? then false
      else MatchesTimestamp(n, UnixMilli(timestamp))
    case Membership(_, userID, _, timestamp) =>
      if n.senderID.Active() && !n.senderID.Matches(userID) then false
      else if n.inReplyTo != "" || n.bodyRegex.Some? || n.reactionKey != "" || n.relatesTo != ""
              || n.hasAttachment.Some? then false
      else MatchesTimestamp(n, UnixMilli(timestamp))
    case Receipt(_, userID, _, timestamp) =>
      if n.senderID.Active() && !n.senderID.Matches(userID) then false
      else if n.inReplyTo != "" || n.bodyRegex.Some? || n.reactionKey != "" || n.relatesTo != ""
              || n.hasAttachment.Some? then false
      else MatchesTimestamp(n, UnixMilli(timestamp))
    case Internal(_) => false
  }

  predicate MatchesTimestamp(n: CompiledNode, ts: int) {
    if n.minTimestamp != 0 && ts < n.minTimestamp then false
    else if n.maxTimestamp != 0 && ts > n.maxTimestamp then false
    else true
  }
}
