/** A reference semantics for filter trees, written from the documented applicability
    table (docs/user-guide.md, section 10.2), and the proof that the compiled matcher
    computes it. */
module FilterSemantics {
  import opened Wrappers
  import opened Events
  import opened Filter

  // # What each predicate reads from an event; None where it does not apply

  function SenderOf(p: Payload): Option<string> {
    if p.Internal? then None
    else if p.Membership? || p.Receipt? then Some(p.userID)
    else Some(p.senderID)
  }

  function ReplyTargetOf(p: Payload): Option<string> {
    if p.Message? then Some(p.inReplyTo) else None
  }

  function BodyOf(p: Payload): Option<string> {
    if p.Message? then Some(p.body) else if p.Edit? then Some(p.newBody) else None
  }

  function AttachmentOf(p: Payload): Option<bool> {
    if p.Message? then Some(p.attachment.Some?) else None
  }

  function ReactionKeyOf(p: Payload): Option<string> {
    if p.Reaction? then Some(p.key) else None
  }

  function TargetOf(p: Payload): Option<string> {
    if p.Reaction? || p.Edit? then Some(p.relatesTo) else if p.Redaction? then Some(p.redacts) else None
  }

  predicate Inbound(env: Envelope) {
    !env.payload.Internal?
  }

  /** One predicate of a node. */
  datatype Atom =
    | Sender(sets: SetFilter)
    | Room(sets: SetFilter)
    | Type(sets: SetFilter)
    | RepliesTo(target: string)
    | Body(pattern: string)
    | Reacts(key: string)
    | Targets(target: string)
    | Attached(present: bool)
    | NotBefore(ms: int)
    | NotAfter(ms: int)

  /** Exclusion takes precedence; an empty include list does not restrict. */
  predicate Admits(f: SetFilter, v: string) {
    v !in f.excluded && (f.included == [] || v in f.included)
  }

  predicate Holds(re: Regexp, a: Atom, env: Envelope) {
    var p := env.payload;
    Inbound(env) &&
    match a
    case Sender(f) => Admits(f, SenderOf(p).value)
    case Room(f) => Admits(f, env.roomID)
    case Type(f) => Admits(f, env.eventType)
    case RepliesTo(target) => ReplyTargetOf(p) == Some(target)
    case Body(pattern) => BodyOf(p).Some? && re.matches(pattern, BodyOf(p).value)
    case Reacts(key) => ReactionKeyOf(p) == Some(key)
    case Targets(target) => TargetOf(p) == Some(target)
    case Attached(present) => AttachmentOf(p) == Some(present)
    case NotBefore(ms) => ms <= UnixMilli(p.timestamp)
    case NotAfter(ms) => UnixMilli(p.timestamp) <= ms
  }

  /** Whether a is one of the predicates set in n, children aside. */
  predicate HasAtom(n: FilterNode, a: Atom) {
    match a
    case Sender(f) => n.senderID == Some(f)
    case Room(f) => n.roomID == Some(f)
    case Type(f) => n.eventType == Some(f)
    case RepliesTo(target) => target != "" && n.inReplyTo == target
    case Body(pattern) => pattern != "" && n.bodyRegex == pattern
    case Reacts(key) => key != "" && n.reactionKey == key
    case Targets(target) => target != "" && n.relatesTo == target
    case Attached(present) => n.hasAttachment == Some(present)
    case NotBefore(ms) => ms != 0 && n.minTimestamp == ms
    case NotAfter(ms) => ms != 0 && n.maxTimestamp == ms
  }

  ghost predicate AtomsHold(re: Regexp, n: FilterNode, env: Envelope) {
    forall a :: HasAtom(n, a) ==> Holds(re, a, env)
  }

  /** An event matches a node when it is an inbound event, every predicate holds, every
      all_of child matches, some any_of child does (if there are any), and the negated
      child does not. */
  ghost predicate Sem(re: Regexp, n: FilterNode, env: Envelope) {
    && Inbound(env)
    && AtomsHold(re, n, env)
    && (forall c :: c in Nodes(n.allOf) ==> Sem(re, c, env))
    && (Nodes(n.anyOf) != [] ==> exists c :: c in Nodes(n.anyOf) && Sem(re, c, env))
    && (n.negated.Some? ==> !Sem(re, n.negated.value, env))
  }

  /** The whole filter: the account must be the handle's, and a missing root matches all. */
  ghost predicate RootSem(re: Regexp, root: Option<FilterNode>, env: Envelope, accountID: string) {
    env.accountID == accountID && (root.Some? ==> Sem(re, root.value, env))
  }

  // # Compilation preserves meaning

  lemma SetMeaning(f: Option<SetFilter>, v: string)
    ensures var ss := CompileSet(f);
            (ss.Active() && !ss.Matches(v)) <==> f.Some? && !Admits(f.value, v)
  {
  }

  /** AtomsHold, predicate by predicate. */
  ghost predicate EachHolds(re: Regexp, n: FilterNode, env: Envelope) {
    && (n.senderID.Some? ==> Holds(re, Sender(n.senderID.value), env))
    && (n.roomID.Some? ==> Holds(re, Room(n.roomID.value), env))
    && (n.eventType.Some? ==> Holds(re, Type(n.eventType.value), env))
    && (n.inReplyTo != "" ==> Holds(re, RepliesTo(n.inReplyTo), env))
    && (n.bodyRegex != "" ==> Holds(re, Body(n.bodyRegex), env))
    && (n.reactionKey != "" ==> Holds(re, Reacts(n.reactionKey), env))
    && (n.relatesTo != "" ==> Holds(re, Targets(n.relatesTo), env))
    && (n.hasAttachment.Some? ==> Holds(re, Attached(n.hasAttachment.value), env))
    && (n.minTimestamp != 0 ==> Holds(re, NotBefore(n.minTimestamp), env))
    && (n.maxTimestamp != 0 ==> Holds(re, NotAfter(n.maxTimestamp), env))
  }

  lemma AtomsSpelledOut(re: Regexp, n: FilterNode, env: Envelope)
    ensures AtomsHold(re, n, env) <==> EachHolds(re, n, env)
  {
    hide Holds;
    if EachHolds(re, n, env) {
      forall a | HasAtom(n, a) ensures Holds(re, a, env) {
      }
    }
    if AtomsHold(re, n, env) {
      assert n.senderID.Some? ==> HasAtom(n, Sender(n.senderID.value));
      assert n.roomID.Some? ==> HasAtom(n, Room(n.roomID.value));
      assert n.eventType.Some? ==> HasAtom(n, Type(n.eventType.value));
      assert n.inReplyTo != "" ==> HasAtom(n, RepliesTo(n.inReplyTo));
      assert n.bodyRegex != "" ==> HasAtom(n, Body(n.bodyRegex));
      assert n.reactionKey != "" ==> HasAtom(n, Reacts(n.reactionKey));
      assert n.relatesTo != "" ==> HasAtom(n, Targets(n.relatesTo));
      assert n.hasAttachment.Some? ==> HasAtom(n, Attached(n.hasAttachment.value));
      assert n.minTimestamp != 0 ==> HasAtom(n, NotBefore(n.minTimestamp));
      assert n.maxTimestamp != 0 ==> HasAtom(n, NotAfter(n.maxTimestamp));
    }
  }

  /** A compiled node carries the predicates of its source node. */
  ghost predicate Mirrors(cn: CompiledNode, n: FilterNode) {
    && cn.senderID == CompileSet(n.senderID)
    && cn.roomID == CompileSet(n.roomID)
    && cn.eventType == CompileSet(n.eventType)
    && cn.bodyRegex == (if n.bodyRegex == "" then None else Some(n.bodyRegex))
    && cn.inReplyTo == n.inReplyTo && cn.reactionKey == n.reactionKey && cn.relatesTo == n.relatesTo
    && cn.hasAttachment == n.hasAttachment
    && cn.minTimestamp == n.minTimestamp && cn.maxTimestamp == n.maxTimestamp
  }

  /** The node-local part of the matcher: the six payload branches against the table. */
  lemma LocalMeaning(re: Regexp, n: FilterNode, cn: CompiledNode, env: Envelope)
    requires Mirrors(cn, n)
    ensures Inbound(env) && AtomsHold(re, n, env) <==>
            && !(cn.roomID.Active() && !cn.roomID.Matches(env.roomID))
            && !(cn.eventType.Active() && !cn.eventType.Matches(env.eventType))
            && MatchesPayload(re, cn, env.payload)
  {
    hide AtomsHold, Admits, StringSet.Matches, StringSet.Active, CompileSet;
    AtomsSpelledOut(re, n, env);
    SetMeaning(n.roomID, env.roomID);
    SetMeaning(n.eventType, env.eventType);
    if Inbound(env) {
      SetMeaning(n.senderID, SenderOf(env.payload).value);
    }
  }

  lemma {:induction false} NodeMeaning(re: Regexp, n: FilterNode, env: Envelope)
    requires CompileNode(re, n).Success?
    ensures MatchesEnvelope(re, CompileNode(re, n).value, env) <==> Sem(re, n, env)
    decreases n, 1
  {
    var cn := CompileNode(re, n).value;
    LocalMeaning(re, n, cn, env);
    if n.allOf.Listed? {
      ListMeaning(re, n.allOf.nodes, env);
    }
    if n.anyOf.Listed? {
      ListMeaning(re, n.anyOf.nodes, env);
    }
    if n.negated.Some? {
      NodeMeaning(re, n.negated.value, env);
    }
  }

  lemma {:induction false} ListMeaning(re: Regexp, ns: seq<FilterNode>, env: Envelope)
    requires CompileAll(re, ns).Success?
    ensures |CompileAll(re, ns).value| == |ns|
    ensures EveryMatches(re, CompileAll(re, ns).value, env) <==> forall c :: c in ns ==> Sem(re, c, env)
    ensures SomeMatches(re, CompileAll(re, ns).value, env) <==> exists c :: c in ns && Sem(re, c, env)
    decreases ns, 0
  {
    if ns != [] {
      NodeMeaning(re, ns[0], env);
      ListMeaning(re, ns[1..], env);
      var cs := CompileAll(re, ns).value;
      assert cs[0] == CompileNode(re, ns[0]).value && cs[1..] == CompileAll(re, ns[1..]).value;
      assert ns == [ns[0]] + ns[1..];
    }
  }

  // # Which trees compile

  ghost predicate PatternsCompile(re: Regexp, n: FilterNode) {
    && (n.bodyRegex != "" ==> re.compiles(n.bodyRegex))
    && (forall c :: c in Nodes(n.allOf) ==> PatternsCompile(re, c))
    && (forall c :: c in Nodes(n.anyOf) ==> PatternsCompile(re, c))
    && (n.negated.Some? ==> PatternsCompile(re, n.negated.value))
  }

  lemma {:induction false} CompilesIffPatternsDo(re: Regexp, n: FilterNode)
    ensures CompileNode(re, n).Success? <==> PatternsCompile(re, n)
    decreases n, 1
  {
    if n.allOf.Listed? {
      AllCompileIffPatternsDo(re, n.allOf.nodes);
    }
    if n.anyOf.Listed? {
      AllCompileIffPatternsDo(re, n.anyOf.nodes);
    }
    if n.negated.Some? {
      CompilesIffPatternsDo(re, n.negated.value);
    }
  }

  lemma {:induction false} AllCompileIffPatternsDo(re: Regexp, ns: seq<FilterNode>)
    ensures CompileAll(re, ns).Success? <==> forall c :: c in ns ==> PatternsCompile(re, c)
    decreases ns, 0
  {
    if ns != [] {
      CompilesIffPatternsDo(re, ns[0]);
      AllCompileIffPatternsDo(re, ns[1..]);
      assert ns == [ns[0]] + ns[1..];
    }
  }

  predicate NonTrivial(f: Option<SetFilter>) {
    f.Some? ==> |f.value.included| + |f.value.excluded| > 0
  }

  /** What a tree must satisfy to be accepted; `lenient` accepts empty child lists, as the
      API conversion does. */
  ghost predicate WellFormed(re: Regexp, n: FilterNode, lenient: bool) {
    && (!lenient ==> n.allOf != Listed([]) && n.anyOf != Listed([]))
    && (n.bodyRegex != "" ==> re.compiles(n.bodyRegex))
    && (n.minTimestamp == 0 || n.maxTimestamp == 0 || n.minTimestamp <= n.maxTimestamp)
    && NonTrivial(n.senderID) && NonTrivial(n.roomID) && NonTrivial(n.eventType)
    && (forall c :: c in Nodes(n.allOf) ==> WellFormed(re, c, lenient))
    && (forall c :: c in Nodes(n.anyOf) ==> WellFormed(re, c, lenient))
    && (n.negated.Some? ==> WellFormed(re, n.negated.value, lenient))
  }

  lemma {:induction false} ValidIffWellFormed(re: Regexp, n: FilterNode)
    ensures Validate(re, n).None? <==> WellFormed(re, n, false)
    decreases n, 1
  {
    if n.allOf.Listed? {
      AllValidIffWellFormed(re, n.allOf.nodes);
    }
    if n.anyOf.Listed? {
      AllValidIffWellFormed(re, n.anyOf.nodes);
    }
    if n.negated.Some? {
      ValidIffWellFormed(re, n.negated.value);
    }
  }

  lemma {:induction false} AllValidIffWellFormed(re: Regexp, ns: seq<FilterNode>)
    ensures ValidateAll(re, ns).None? <==> forall c :: c in ns ==> WellFormed(re, c, false)
    decreases ns, 0
  {
    if ns != [] {
      ValidIffWellFormed(re, ns[0]);
      AllValidIffWellFormed(re, ns[1..]);
      assert ns == [ns[0]] + ns[1..];
    }
  }

  /** What each error says of a node. */
  predicate NodeFault(re: Regexp, n: FilterNode, e: FilterError) {
    match e
    case EmptyAllOf => n.allOf.Listed? && n.allOf.nodes == []
    case EmptyAnyOf => n.anyOf.Listed? && n.anyOf.nodes == []
    case BadRegex(pattern) => pattern != "" && n.bodyRegex == pattern && !re.compiles(pattern)
    case BadWindow => n.minTimestamp != 0 && n.maxTimestamp != 0 && n.minTimestamp > n.maxTimestamp
    case EmptySet => !NonTrivial(n.senderID) || !NonTrivial(n.roomID) || !NonTrivial(n.eventType)
  }

  /** It is true of some node of the tree. */
  ghost predicate HasFault(re: Regexp, n: FilterNode, e: FilterError) {
    || NodeFault(re, n, e)
    || (exists c :: c in Nodes(n.allOf) && HasFault(re, c, e))
    || (exists c :: c in Nodes(n.anyOf) && HasFault(re, c, e))
    || (n.negated.Some? && HasFault(re, n.negated.value, e))
  }

  /** The error that rejects a filter is true of it. */
  lemma {:induction false} ErrorIsTrue(re: Regexp, n: FilterNode)
    requires Validate(re, n).Some?
    ensures HasFault(re, n, Validate(re, n).value)
    decreases n, 1
  {
    var e := Validate(re, n).value;
    if !NodeFault(re, n, e) {
      if ValidateChildren(re, n.allOf).Some? {
        ErrorOfAll(re, n.allOf.nodes);
      } else if ValidateChildren(re, n.anyOf).Some? {
        ErrorOfAll(re, n.anyOf.nodes);
      } else {
        ErrorIsTrue(re, n.negated.value);
      }
    }
  }

  /** A node's own faults come before its children's, in this order; then come all_of, any_of
      and the negated child. */
  lemma ErrorPrecedence(re: Regexp, n: FilterNode)
    ensures NodeFault(re, n, EmptyAllOf) ==> Validate(re, n) == Some(EmptyAllOf)
    ensures NodeFault(re, n, EmptyAnyOf) && Validate(re, n) != Some(EmptyAllOf) ==> Validate(re, n) == Some(EmptyAnyOf)
    ensures NodeFault(re, n, BadRegex(n.bodyRegex)) ==>
              Validate(re, n) in {Some(EmptyAllOf), Some(EmptyAnyOf), Some(BadRegex(n.bodyRegex))}
    ensures NodeFault(re, n, BadWindow) && !NodeFault(re, n, BadRegex(n.bodyRegex)) ==>
              Validate(re, n) in {Some(EmptyAllOf), Some(EmptyAnyOf), Some(BadWindow)}
    ensures NodeFault(re, n, EmptySet) && !NodeFault(re, n, BadRegex(n.bodyRegex)) && !NodeFault(re, n, BadWindow) ==>
              Validate(re, n) in {Some(EmptyAllOf), Some(EmptyAnyOf), Some(EmptySet)}
    ensures (forall e :: !NodeFault(re, n, e)) ==>
              var all, any := ValidateChildren(re, n.allOf), ValidateChildren(re, n.anyOf);
              && (all.Some? ==> Validate(re, n) == all)
              && (all.None? && any.Some? ==> Validate(re, n) == any)
              && (all.None? && any.None? && n.negated.Some? ==> Validate(re, n) == Validate(re, n.negated.value))
  {
    if forall e :: !NodeFault(re, n, e) {
      assert !NodeFault(re, n, EmptyAllOf) && !NodeFault(re, n, EmptyAnyOf);
      assert !NodeFault(re, n, BadRegex(n.bodyRegex)) && !NodeFault(re, n, BadWindow) && !NodeFault(re, n, EmptySet);
    }
  }

  lemma {:induction false} ErrorOfAll(re: Regexp, ns: seq<FilterNode>)
    requires ValidateAll(re, ns).Some?
    ensures exists c :: c in ns && HasFault(re, c, ValidateAll(re, ns).value)
    decreases ns, 0
  {
    if Validate(re, ns[0]).Some? {
      ErrorIsTrue(re, ns[0]);
      assert ns[0] in ns;
    } else {
      ErrorOfAll(re, ns[1..]);
      var c :| c in ns[1..] && HasFault(re, c, ValidateAll(re, ns[1..]).value);
      assert c in ns;
    }
  }

  lemma {:induction false} WellFormedCompiles(re: Regexp, n: FilterNode)
    requires WellFormed(re, n, false)
    ensures PatternsCompile(re, n)
    decreases n
  {
    forall c | c in Nodes(n.allOf) ensures PatternsCompile(re, c) {
      WellFormedCompiles(re, c);
    }
    forall c | c in Nodes(n.anyOf) ensures PatternsCompile(re, c) {
      WellFormedCompiles(re, c);
    }
    if n.negated.Some? {
      WellFormedCompiles(re, n.negated.value);
    }
  }

  /** A filter is accepted exactly when its tree is well formed (so after validation the
      compiler cannot fail), and the accepted matcher computes the reference semantics. */
  lemma CompiledFilterMeansSource(re: Regexp, root: Option<FilterNode>, env: Envelope, accountID: string)
    ensures NewCompiledFilter(re, root).Success? <==> (root.Some? ==> WellFormed(re, root.value, false))
    ensures NewCompiledFilter(re, root).Success? ==>
              (FilterMatches(re, NewCompiledFilter(re, root).value, env, accountID)
               <==> RootSem(re, root, env, accountID))
  {
    if root.Some? {
      ValidIffWellFormed(re, root.value);
      if WellFormed(re, root.value, false) {
        WellFormedCompiles(re, root.value);
        CompilesIffPatternsDo(re, root.value);
        NodeMeaning(re, root.value, env);
      }
    }
  }

  // # API trees

  lemma {:induction false} ConvertAllMember(fs: seq<FilterNode>)
    ensures forall c :: c in ConvertAll(fs) ==> exists f :: f in fs && c == Convert(f)
    ensures forall f :: f in fs ==> Convert(f) in ConvertAll(fs)
    decreases fs
  {
    if fs != [] {
      ConvertAllMember(fs[1..]);
      var tail := ConvertAll(fs[1..]);
      assert ConvertAll(fs) == [Convert(fs[0])] + tail;
      forall c | c in ConvertAll(fs) ensures exists f :: f in fs && c == Convert(f) {
        if c in tail {
          var f :| f in fs[1..] && c == Convert(f);
          assert f in fs;
        } else {
          assert c == Convert(fs[0]);
        }
      }
    }
  }

  lemma ConvertNodes(c: Children)
    ensures Nodes(ConvertChildren(c)) == ConvertAll(Nodes(c))
    ensures ConvertChildren(c) != Listed([])
  {
  }

  /** Converting an API tree never changes what it means. */
  lemma {:induction false} ConvertKeepsMeaning(re: Regexp, f: FilterNode, env: Envelope)
    ensures Sem(re, Convert(f), env) <==> Sem(re, f, env)
    decreases f
  {
    hide Holds;
    var n := Convert(f);
    assert forall a :: HasAtom(n, a) <==> HasAtom(f, a);
    assert AtomsHold(re, n, env) <==> AtomsHold(re, f, env);
    ConvertNodes(f.allOf);
    ConvertNodes(f.anyOf);
    ConvertAllMember(Nodes(f.allOf));
    ConvertAllMember(Nodes(f.anyOf));
    forall c | c in Nodes(f.allOf) || c in Nodes(f.anyOf) ensures Sem(re, Convert(c), env) <==> Sem(re, c, env) {
      ConvertKeepsMeaning(re, c, env);
    }
    if f.negated.Some? {
      ConvertKeepsMeaning(re, f.negated.value, env);
    }
  }

  /** Conversion repairs empty child lists and nothing else. */
  lemma {:induction false} ConvertRepairsEmptyLists(re: Regexp, f: FilterNode)
    ensures WellFormed(re, Convert(f), false) <==> WellFormed(re, f, true)
    decreases f
  {
    ConvertNodes(f.allOf);
    ConvertNodes(f.anyOf);
    ConvertAllMember(Nodes(f.allOf));
    ConvertAllMember(Nodes(f.anyOf));
    forall c | c in Nodes(f.allOf) || c in Nodes(f.anyOf)
      ensures WellFormed(re, Convert(c), false) <==> WellFormed(re, c, true)
    {
      ConvertRepairsEmptyLists(re, c);
    }
    if f.negated.Some? {
      ConvertRepairsEmptyLists(re, f.negated.value);
    }
  }

  /** End to end for a filter received over the API. */
  lemma ApiFilterMeansSource(re: Regexp, f: FilterNode, env: Envelope, accountID: string)
    ensures var r := NewCompiledFilter(re, Some(Convert(f)));
            && (r.Success? <==> WellFormed(re, f, true))
            && (r.Success? ==> (FilterMatches(re, r.value, env, accountID)
                                <==> env.accountID == accountID && Sem(re, f, env)))
  {
    ConvertKeepsMeaning(re, f, env);
    ConvertRepairsEmptyLists(re, f);
    CompiledFilterMeansSource(re, Some(Convert(f)), env, accountID);
  }
}
