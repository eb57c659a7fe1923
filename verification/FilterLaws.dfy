/** The combinators are Boolean on every envelope, so a tree can be taken apart into
    single predicates and its negations pushed down to them. */
module FilterLaws {
  import opened Wrappers
  import opened Events
  import opened Filter
  import opened FilterSemantics

  function AllOf(ns: seq<FilterNode>): FilterNode {
    EMPTY.(allOf := Listed(ns))
  }

  function AnyOf(ns: seq<FilterNode>): FilterNode {
    EMPTY.(anyOf := Listed(ns))
  }

  function Not(n: FilterNode): FilterNode {
    EMPTY.(negated := Some(n))
  }

  /** The node whose only predicate is a. */
  function Single(a: Atom): FilterNode {
    match a
    case Sender(f) => EMPTY.(senderID := Some(f))
    case Room(f) => EMPTY.(roomID := Some(f))
    case Type(f) => EMPTY.(eventType := Some(f))
    case RepliesTo(target) => EMPTY.(inReplyTo := target)
    case Body(pattern) => EMPTY.(bodyRegex := pattern)
    case Reacts(key) => EMPTY.(reactionKey := key)
    case Targets(target) => EMPTY.(relatesTo := target)
    case Attached(present) => EMPTY.(hasAttachment := Some(present))
    case NotBefore(ms) => EMPTY.(minTimestamp := ms)
    case NotAfter(ms) => EMPTY.(maxTimestamp := ms)
  }

  function When(b: bool, a: Atom): seq<Atom> {
    if b then [a] else []
  }

  function SetAtoms(n: FilterNode): seq<Atom> {
    (if n.senderID.Some? then [Sender(n.senderID.value)] else [])
    + (if n.roomID.Some? then [Room(n.roomID.value)] else [])
    + (if n.eventType.Some? then [Type(n.eventType.value)] else [])
    + (if n.hasAttachment.Some? then [Attached(n.hasAttachment.value)] else [])
  }

  function StringAtoms(n: FilterNode): seq<Atom> {
    When(n.inReplyTo != "", RepliesTo(n.inReplyTo))
    + When(n.bodyRegex != "", Body(n.bodyRegex))
    + When(n.reactionKey != "", Reacts(n.reactionKey))
    + When(n.relatesTo != "", Targets(n.relatesTo))
  }

  function WindowAtoms(n: FilterNode): seq<Atom> {
    When(n.minTimestamp != 0, NotBefore(n.minTimestamp)) + When(n.maxTimestamp != 0, NotAfter(n.maxTimestamp))
  }

  function Atoms(n: FilterNode): seq<Atom> {
    SetAtoms(n) + StringAtoms(n) + WindowAtoms(n)
  }

  lemma SetAtomsAreThose(n: FilterNode, a: Atom)
    ensures a in SetAtoms(n) <==> HasAtom(n, a) && (a.Sender? || a.Room? || a.Type? || a.Attached?)
  {
  }

  lemma StringAtomsAreThose(n: FilterNode, a: Atom)
    ensures a in StringAtoms(n) <==> HasAtom(n, a) && (a.RepliesTo? || a.Body? || a.Reacts? || a.Targets?)
  {
  }

  lemma AtomsAreThose(n: FilterNode, a: Atom)
    ensures a in Atoms(n) <==> HasAtom(n, a)
  {
    SetAtomsAreThose(n, a);
    StringAtomsAreThose(n, a);
    assert a in WindowAtoms(n) <==> HasAtom(n, a) && (a.NotBefore? || a.NotAfter?);
    hide SetAtoms, StringAtoms, WindowAtoms;
  }

  lemma EmptyMatchesInbound(re: Regexp, env: Envelope)
    ensures Sem(re, EMPTY, env) <==> Inbound(env)
  {
    assert forall a :: !HasAtom(EMPTY, a);
  }

  lemma AllOfMeaning(re: Regexp, ns: seq<FilterNode>, env: Envelope)
    ensures Sem(re, AllOf(ns), env) <==> Inbound(env) && forall c :: c in ns ==> Sem(re, c, env)
  {
    assert forall a :: !HasAtom(AllOf(ns), a);
  }

  lemma AnyOfMeaning(re: Regexp, ns: seq<FilterNode>, env: Envelope)
    ensures Sem(re, AnyOf(ns), env) <==> Inbound(env) && (ns == [] || exists c :: c in ns && Sem(re, c, env))
  {
    assert forall a :: !HasAtom(AnyOf(ns), a);
  }

  lemma NotMeaning(re: Regexp, n: FilterNode, env: Envelope)
    ensures Sem(re, Not(n), env) <==> Inbound(env) && !Sem(re, n, env)
  {
    assert forall a :: !HasAtom(Not(n), a);
  }

  lemma SingleMeaning(re: Regexp, n: FilterNode, a: Atom, env: Envelope)
    requires HasAtom(n, a)
    ensures Sem(re, Single(a), env) <==> Holds(re, a, env)
  {
    assert forall b :: HasAtom(Single(a), b) <==> b == a;
    assert AtomsHold(re, Single(a), env) <==> Holds(re, a, env);
  }

  /** Double negation and both De Morgan laws, on every envelope. */
  lemma BooleanLaws(re: Regexp, n: FilterNode, ns: seq<FilterNode>, negs: seq<FilterNode>, env: Envelope)
    requires ns != [] && |negs| == |ns| && forall i :: 0 <= i < |ns| ==> negs[i] == Not(ns[i])
    ensures Sem(re, Not(Not(n)), env) <==> Sem(re, n, env)
    ensures Sem(re, Not(AllOf(ns)), env) <==> Sem(re, AnyOf(negs), env)
    ensures Sem(re, Not(AnyOf(ns)), env) <==> Sem(re, AllOf(negs), env)
  {
    assert Sem(re, n, env) ==> Inbound(env);
    hide Sem;
    NotMeaning(re, n, env);
    NotMeaning(re, Not(n), env);
    NotMeaning(re, AllOf(ns), env);
    NotMeaning(re, AnyOf(ns), env);
    AllOfMeaning(re, ns, env);
    AnyOfMeaning(re, ns, env);
    AllOfMeaning(re, negs, env);
    AnyOfMeaning(re, negs, env);
    forall i | 0 <= i < |ns| ensures Sem(re, negs[i], env) <==> Inbound(env) && (Sem(re, ns[i], env) <==> false) {
      NotMeaning(re, ns[i], env);
    }
    PointwiseQuantifiers(re, ns, negs, false, env);
  }

  // # Negation normal form

  function Conj(ns: seq<FilterNode>): FilterNode {
    if ns == [] then EMPTY else AllOf(ns)
  }

  function Disj(ns: seq<FilterNode>): FilterNode {
    if ns == [] then Not(EMPTY) else AnyOf(ns)
  }

  lemma ConjMeaning(re: Regexp, ns: seq<FilterNode>, env: Envelope)
    ensures Sem(re, Conj(ns), env) <==> Inbound(env) && forall c :: c in ns ==> Sem(re, c, env)
  {
    EmptyMatchesInbound(re, env);
    AllOfMeaning(re, ns, env);
  }

  lemma DisjMeaning(re: Regexp, ns: seq<FilterNode>, env: Envelope)
    ensures Sem(re, Disj(ns), env) <==> Inbound(env) && exists c :: c in ns && Sem(re, c, env)
  {
    EmptyMatchesInbound(re, env);
    NotMeaning(re, EMPTY, env);
    AnyOfMeaning(re, ns, env);
  }

  function Singles(atoms: seq<Atom>, positive: bool): (r: seq<FilterNode>)
    ensures |r| == |atoms|
    ensures forall i :: 0 <= i < |atoms| ==> r[i] == if positive then Single(atoms[i]) else Not(Single(atoms[i]))
  {
    seq(|atoms|, i requires 0 <= i < |atoms| => if positive then Single(atoms[i]) else Not(Single(atoms[i])))
  }

  /** The node's parts as separate nodes: one per predicate, one per combinator. */
  function Parts(n: FilterNode): seq<FilterNode> {
    Singles(Atoms(n), true)
    + Nodes(n.allOf)
    + (if Nodes(n.anyOf) == [] then [] else [AnyOf(Nodes(n.anyOf))])
    + (if n.negated.Some? then [Not(n.negated.value)] else [])
  }

  /** A node with several predicates is the all_of of its single-predicate nodes. */
  lemma NodeIsConjunctionOfParts(re: Regexp, n: FilterNode, env: Envelope)
    ensures Sem(re, Conj(Parts(n)), env) <==> Sem(re, n, env)
  {
    ConjMeaning(re, Parts(n), env);
    SinglesMeaning(re, n, env);
    AnyOfMeaning(re, Nodes(n.anyOf), env);
    if n.negated.Some? {
      NotMeaning(re, n.negated.value, env);
    }
  }

  lemma SinglesMeaning(re: Regexp, n: FilterNode, env: Envelope)
    ensures (forall c :: c in Singles(Atoms(n), true) ==> Sem(re, c, env)) <==> AtomsHold(re, n, env)
    ensures Inbound(env) ==>
              ((exists c :: c in Singles(Atoms(n), false) && Sem(re, c, env)) <==> !AtomsHold(re, n, env))
  {
    hide Holds, Sem;
    var atoms, pos, neg := Atoms(n), Singles(Atoms(n), true), Singles(Atoms(n), false);
    forall i | 0 <= i < |atoms|
      ensures HasAtom(n, atoms[i])
      ensures Sem(re, pos[i], env) <==> Holds(re, atoms[i], env)
      ensures Sem(re, neg[i], env) <==> Inbound(env) && !Holds(re, atoms[i], env)
    {
      assert atoms[i] in atoms;
      AtomsAreThose(n, atoms[i]);
      SingleMeaning(re, n, atoms[i], env);
      NotMeaning(re, Single(atoms[i]), env);
    }
    forall a | HasAtom(n, a) ensures exists i :: 0 <= i < |atoms| && atoms[i] == a {
      AtomsAreThose(n, a);
    }
    if AtomsHold(re, n, env) {
      forall c | c in pos ensures Sem(re, c, env) {
        var i :| 0 <= i < |pos| && pos[i] == c;
      }
    } else {
      var a :| HasAtom(n, a) && !Holds(re, a, env);
      var i :| 0 <= i < |atoms| && atoms[i] == a;
      assert pos[i] in pos && neg[i] in neg;
    }
  }

  /** n with every negation pushed down to a single predicate (or the empty node);
      `positive` chooses between n and its negation. */
  function Nnf(n: FilterNode, positive: bool): FilterNode
    decreases n, 1
  {
    var singles := Singles(Atoms(n), positive);
    var all := NnfChildren(n.allOf, positive);
    var any := NnfChildren(n.anyOf, positive);
    var neg := if n.negated.Some? then [Nnf(n.negated.value, !positive)] else [];
    if positive then Conj(singles + all + (if any == [] then [] else [AnyOf(any)]) + neg)
    else Disj(singles + all + (if any == [] then [] else [AllOf(any)]) + neg)
  }

  function NnfChildren(c: Children, positive: bool): (r: seq<FilterNode>)
    ensures |r| == |Nodes(c)|
    decreases c, 0
  {
    if c.Unset? then [] else NnfAll(c.nodes, positive)
  }

  function NnfAll(ns: seq<FilterNode>, positive: bool): (r: seq<FilterNode>)
    ensures |r| == |ns|
    decreases ns, 0
  {
    if ns == [] then [] else [Nnf(ns[0], positive)] + NnfAll(ns[1..], positive)
  }

  lemma {:induction false} NnfAllIndex(ns: seq<FilterNode>, positive: bool, i: nat)
    requires i < |ns|
    ensures NnfAll(ns, positive)[i] == Nnf(ns[i], positive)
  {
    if i > 0 {
      NnfAllIndex(ns[1..], positive, i - 1);
    }
  }

  lemma SemUnfold(re: Regexp, n: FilterNode, env: Envelope)
    ensures Sem(re, n, env) <==>
              && Inbound(env)
              && AtomsHold(re, n, env)
              && (forall c :: c in Nodes(n.allOf) ==> Sem(re, c, env))
              && (Nodes(n.anyOf) != [] ==> exists c :: c in Nodes(n.anyOf) && Sem(re, c, env))
              && (n.negated.Some? ==> !Sem(re, n.negated.value, env))
  {
  }

  ghost predicate Agrees(re: Regexp, n: FilterNode, positive: bool, env: Envelope) {
    Sem(re, Nnf(n, positive), env) <==> Inbound(env) && (Sem(re, n, env) <==> positive)
  }

  /** Negation normal form means the same as the tree, or as its negation. */
  lemma {:induction false} NnfMeaning(re: Regexp, n: FilterNode, positive: bool, env: Envelope)
    ensures Agrees(re, n, positive, env)
    decreases n, 1
  {
    hide Atoms, Singles, AtomsHold, Sem;
    SemUnfold(re, n, env);
    NnfUnfold(n, positive);
    var singles := Singles(Atoms(n), positive);
    var all, any := NnfChildren(n.allOf, positive), NnfChildren(n.anyOf, positive);
    var neg := if n.negated.Some? then [Nnf(n.negated.value, !positive)] else [];
    SinglesMeaning(re, n, env);
    NnfChildrenMeaning(re, n.allOf, positive, env);
    NnfChildrenMeaning(re, n.anyOf, positive, env);
    if n.negated.Some? {
      NnfMeaning(re, n.negated.value, !positive, env);
    }
    AnyOfMeaning(re, any, env);
    AllOfMeaning(re, any, env);
    if positive {
      var anyPart := if any == [] then [] else [AnyOf(any)];
      ConjMeaning(re, singles + all + anyPart + neg, env);
      QuantifyParts(re, singles, all, anyPart, neg, env);
    } else {
      var anyPart := if any == [] then [] else [AllOf(any)];
      DisjMeaning(re, singles + all + anyPart + neg, env);
      QuantifyParts(re, singles, all, anyPart, neg, env);
    }
  }

  lemma QuantifyParts(re: Regexp, a: seq<FilterNode>, b: seq<FilterNode>, c: seq<FilterNode>, d: seq<FilterNode>,
                      env: Envelope)
    requires |c| <= 1 && |d| <= 1
    ensures (forall n :: n in a + b + c + d ==> Sem(re, n, env)) <==>
              && (forall n :: n in a ==> Sem(re, n, env)) && (forall n :: n in b ==> Sem(re, n, env))
              && (c != [] ==> Sem(re, c[0], env)) && (d != [] ==> Sem(re, d[0], env))
    ensures (exists n :: n in a + b + c + d && Sem(re, n, env)) <==>
              || (exists n :: n in a && Sem(re, n, env)) || (exists n :: n in b && Sem(re, n, env))
              || (c != [] && Sem(re, c[0], env)) || (d != [] && Sem(re, d[0], env))
  {
    hide Sem;
    assert forall n :: n in a + b + c + d <==> n in a || n in b || n in c || n in d;
    assert forall n :: n in c <==> c != [] && n == c[0];
    assert forall n :: n in d <==> d != [] && n == d[0];
  }

  lemma {:induction false} NnfChildrenMeaning(re: Regexp, c: Children, positive: bool, env: Envelope)
    ensures var r := NnfChildren(c, positive);
            && ((forall d :: d in r ==> Sem(re, d, env)) <==>
                forall d :: d in Nodes(c) ==> Inbound(env) && (Sem(re, d, env) <==> positive))
            && ((exists d :: d in r && Sem(re, d, env)) <==>
                exists d :: d in Nodes(c) && Inbound(env) && (Sem(re, d, env) <==> positive))
    decreases c, 0
  {
    if c.Listed? {
      var ns, r := c.nodes, NnfAll(c.nodes, positive);
      forall i | 0 <= i < |ns| ensures Sem(re, r[i], env) <==> Inbound(env) && (Sem(re, ns[i], env) <==> positive) {
        NnfAllIndex(ns, positive, i);
        NnfMeaning(re, ns[i], positive, env);
      }
      PointwiseQuantifiers(re, ns, r, positive, env);
    }
  }

  lemma PointwiseQuantifiers(re: Regexp, ns: seq<FilterNode>, r: seq<FilterNode>, positive: bool, env: Envelope)
    requires |r| == |ns|
    requires forall i :: 0 <= i < |ns| ==> (Sem(re, r[i], env) <==> Inbound(env) && (Sem(re, ns[i], env) <==> positive))
    ensures (forall d :: d in r ==> Sem(re, d, env)) <==>
              forall d :: d in ns ==> Inbound(env) && (Sem(re, d, env) <==> positive)
    ensures (exists d :: d in r && Sem(re, d, env)) <==>
              exists d :: d in ns && Inbound(env) && (Sem(re, d, env) <==> positive)
  {
    hide Sem;
    if e :| e in r && !Sem(re, e, env) {
      var i :| 0 <= i < |r| && r[i] == e;
      assert ns[i] in ns;
    }
    if e :| e in r && Sem(re, e, env) {
      var i :| 0 <= i < |r| && r[i] == e;
      assert ns[i] in ns;
    }
    if d :| d in ns && (Sem(re, d, env) <==> positive) {
      var i :| 0 <= i < |ns| && ns[i] == d;
      assert r[i] in r;
    }
    if d :| d in ns && (Sem(re, d, env) <==> !positive) {
      var i :| 0 <= i < |ns| && ns[i] == d;
      assert r[i] in r;
    }
    if ns != [] {
      assert ns[0] in ns && r[0] in r;
    }
  }

  /** Negation occurs only around a node without children. */
  ghost predicate IsNnf(n: FilterNode) {
    && (forall c :: c in Nodes(n.allOf) ==> IsNnf(c))
    && (forall c :: c in Nodes(n.anyOf) ==> IsNnf(c))
    && (n.negated.Some? ==> Childless(n.negated.value))
  }

  predicate Childless(n: FilterNode) {
    n.allOf.Unset? && n.anyOf.Unset? && n.negated.None?
  }

  /** The normal form has its shape, and stays acceptable to the validator. */
  lemma {:induction false} NnfShape(re: Regexp, n: FilterNode, positive: bool)
    requires WellFormed(re, n, true)
    ensures IsNnf(Nnf(n, positive)) && WellFormed(re, Nnf(n, positive), false)
    decreases n, 1
  {
    hide Atoms, Singles, Nnf, NnfChildren, IsNnf, Childless;
    NnfChildrenShape(re, n.allOf, positive);
    NnfChildrenShape(re, n.anyOf, positive);
    if n.negated.Some? {
      NnfShape(re, n.negated.value, !positive);
    }
    SinglesShape(re, n, positive);
    hide WellFormed;
    var singles := Singles(Atoms(n), positive);
    var all, any := NnfChildren(n.allOf, positive), NnfChildren(n.anyOf, positive);
    var neg := if n.negated.Some? then [Nnf(n.negated.value, !positive)] else [];
    GoodCombination(re, any);
    GoodCombination(re, singles + all + (if any == [] then [] else [AnyOf(any)]) + neg);
    GoodCombination(re, singles + all + (if any == [] then [] else [AllOf(any)]) + neg);
    NnfUnfold(n, positive);
  }

  lemma NnfUnfold(n: FilterNode, positive: bool)
    ensures var singles := Singles(Atoms(n), positive);
            var all := NnfChildren(n.allOf, positive);
            var any := NnfChildren(n.anyOf, positive);
            var neg := if n.negated.Some? then [Nnf(n.negated.value, !positive)] else [];
            Nnf(n, positive) ==
              if positive then Conj(singles + all + (if any == [] then [] else [AnyOf(any)]) + neg)
              else Disj(singles + all + (if any == [] then [] else [AllOf(any)]) + neg)
  {
    hide Atoms, Singles;
  }

  ghost predicate Good(re: Regexp, n: FilterNode) {
    IsNnf(n) && WellFormed(re, n, false)
  }

  lemma GoodCombination(re: Regexp, ns: seq<FilterNode>)
    requires forall c :: c in ns ==> Good(re, c)
    ensures Good(re, Conj(ns)) && Good(re, Disj(ns))
    ensures ns != [] ==> Good(re, AllOf(ns)) && Good(re, AnyOf(ns))
  {
    assert Good(re, EMPTY) && Childless(EMPTY);
  }

  lemma SinglesShape(re: Regexp, n: FilterNode, positive: bool)
    requires WellFormed(re, n, true)
    ensures forall c :: c in Singles(Atoms(n), positive) ==> Good(re, c)
  {
    forall i | 0 <= i < |Atoms(n)| ensures Good(re, Single(Atoms(n)[i])) && Good(re, Not(Single(Atoms(n)[i]))) {
      AtomsAreThose(n, Atoms(n)[i]);
      SingleShape(re, n, Atoms(n)[i]);
    }
  }

  lemma SingleShape(re: Regexp, n: FilterNode, a: Atom)
    requires WellFormed(re, n, true) && HasAtom(n, a)
    ensures Good(re, Single(a)) && Good(re, Not(Single(a)))
  {
    assert Childless(Single(a));
  }

  lemma {:induction false} NnfChildrenShape(re: Regexp, c: Children, positive: bool)
    requires forall d :: d in Nodes(c) ==> WellFormed(re, d, true)
    ensures forall d :: d in NnfChildren(c, positive) ==> Good(re, d)
    decreases c, 0
  {
    if c.Listed? {
      forall i | 0 <= i < |c.nodes| ensures Good(re, NnfAll(c.nodes, positive)[i]) {
        assert c.nodes[i] in Nodes(c);
        NnfAllIndex(c.nodes, positive, i);
        NnfShape(re, c.nodes[i], positive);
      }
    }
  }

  /** Registering the normal form of an acceptable tree is registering the tree: it is
      accepted, and the compiled matchers agree on every envelope and account. */
  lemma NnfIsInterchangeable(re: Regexp, n: FilterNode, env: Envelope, accountID: string)
    requires WellFormed(re, n, false)
    ensures var a := NewCompiledFilter(re, Some(n));
            var b := NewCompiledFilter(re, Some(Nnf(n, true)));
            && a.Success? && b.Success? && IsNnf(Nnf(n, true))
            && (FilterMatches(re, a.value, env, accountID) <==> FilterMatches(re, b.value, env, accountID))
  {
    WellFormedIsLenient(re, n);
    NnfShape(re, n, true);
    NnfMeaning(re, n, true, env);
    CompiledFilterMeansSource(re, Some(n), env, accountID);
    CompiledFilterMeansSource(re, Some(Nnf(n, true)), env, accountID);
  }

  lemma {:induction false} WellFormedIsLenient(re: Regexp, n: FilterNode)
    requires WellFormed(re, n, false)
    ensures WellFormed(re, n, true)
    decreases n
  {
    forall c | c in Nodes(n.allOf) || c in Nodes(n.anyOf) ensures WellFormed(re, c, true) {
      WellFormedIsLenient(re, c);
    }
    if n.negated.Some? {
      WellFormedIsLenient(re, n.negated.value);
    }
  }

  /** A registered filter, negations included, rejects every event that is not inbound. */
  lemma OnlyInboundMatches(re: Regexp, n: FilterNode, env: Envelope, accountID: string)
    requires env.payload.Internal?
    ensures var r := NewCompiledFilter(re, Some(n));
            r.Success? ==> !FilterMatches(re, r.value, env, accountID)
  {
    CompiledFilterMeansSource(re, Some(n), env, accountID);
  }
}
