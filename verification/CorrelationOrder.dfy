/** Which events handles get, and in which order, although six dispatch goroutines feed them:
    an invariant that keeps every handle's account of every event type. */
module CorrelationOrder {
  import opened Wrappers
  import opened Events
  import opened Filter
  import opened Subsequence
  import opened Bus
  import opened Correlation
  import opened CorrelationInvariant
  import opened CorrelationAccount

  function Accepting(re: Regexp, kind: Kind, id: string, filter: Option<CompiledNode>, accountID: string)
    : Envelope -> bool
  {
    (env: Envelope) =>
      && FilterMatches(re, filter, env, accountID)
      && (kind.Ask? ==> !(env.payload.Message? && env.payload.eventID == id))
  }

  /** The events a handle is to get. */
  function Matches(re: Regexp, id: string, h: Handle): Envelope -> bool {
    Accepting(re, h.kind, id, h.filter, h.accountID)
  }

  lemma MatchesAccepts(re: Regexp, id: string, h: Handle, env: Envelope)
    ensures Matches(re, id, h)(env) <==> Accepts(re, id, h, env)
  {
  }

  /** What the dispatcher of type t holds for this handle and has not yet given to it. */
  function InService(s: State, id: string, t: EventType): Option<Envelope> {
    if t in s.dispatch && (id in s.dispatch[t].asks || id in s.dispatch[t].receives) then Some(s.dispatch[t].env)
    else None
  }

  predicate Full(h: Handle) {
    h.limit > 0 && |h.collected| >= h.limit
  }

  /** The event of type t that resolved an ask. */
  function ResolvedBy(h: Handle, t: EventType): Option<Envelope> {
    if !h.once.Fresh? && h.once.outcome.Matched? && h.once.outcome.env.eventType == t then Some(h.once.outcome.env)
    else None
  }

  // # The invariant

  predicate NoRepeats(ids: seq<string>) {
    forall i, j :: 0 <= i < j < |ids| ==> ids[i] != ids[j]
  }

  /** The channel and the dispatcher of one type. An event in hand is the last one taken. */
  ghost predicate TypeOk(s: State, t: EventType) {
    var c := Inbox(s.inbox, t);
    && Ledger(c)
    && (forall i :: 0 <= i < |c.buffer| ==> c.buffer[i].eventType == t)
    && (t in s.dispatch ==>
          var d := s.dispatch[t];
          && d.env.eventType == t && c.handled != [] && c.handled[|c.handled| - 1] == d.env
          && NoRepeats(d.asks) && NoRepeats(d.receives)
          && (!d.matched ==> d.asks == [] && d.receives == []))
  }

  ghost predicate OrderOk(re: Regexp, s: State, id: string, t: EventType)
    requires id in s.handles
  {
    var h := s.handles[id];
    var was, c, pending := Inbox(h.origin, t), Unmatched(s, t), InService(s, id, t);
    match h.kind
    case Receive =>
      Account(Matches(re, id, h), t, was, c, h.collected, Full(h), id in s.listed, pending)
    case Ask =>
      AskAccount(Matches(re, id, h), was, c, h.once.Fresh?, ResolvedBy(h, t), pending)
  }

  predicate Tracked(s: State, id: string) {
    id in s.handles && s.handles[id].published
  }

  ghost predicate Order(re: Regexp, s: State) {
    && (forall t :: TypeOk(s, t))
    && (forall id, t :: Tracked(s, id) ==> OrderOk(re, s, id, t))
  }

  /** A handle whose account does not change. */
  ghost predicate Undisturbed(h: Handle, h': Handle) {
    && h'.kind == h.kind && h'.origin == h.origin && h'.collected == h.collected && h'.limit == h.limit
    && h'.filter == h.filter && h'.accountID == h.accountID && h'.published == h.published
    && (h'.once.Fresh? ==> h.once.Fresh?)
    && (forall t :: ResolvedBy(h', t) == ResolvedBy(h, t))
  }

  lemma OrderSame(re: Regexp, s: State, s': State, id: string, t: EventType)
    requires id in s.handles && id in s'.handles && OrderOk(re, s, id, t)
    requires Unmatched(s', t) == Unmatched(s, t) && InService(s', id, t) == InService(s, id, t)
    requires id in s'.listed ==> id in s.listed
    requires Undisturbed(s.handles[id], s'.handles[id])
    ensures OrderOk(re, s', id, t)
  {
    hide Carried, Select, Done, Unmatched, InService, ResolvedBy;
    var h, h' := s.handles[id], s'.handles[id];
    assert Matches(re, id, h') == Matches(re, id, h) && Full(h') == Full(h);
    assert ResolvedBy(h', t) == ResolvedBy(h, t);
  }

  /** A step after which no channel, as far as matched, and nothing pending has changed. */
  lemma OrderQuiet(re: Regexp, s: State, s': State)
    requires Order(re, s) && forall t :: TypeOk(s', t)
    requires forall t :: Unmatched(s', t) == Unmatched(s, t)
    requires forall id, t :: InService(s', id, t) == InService(s, id, t)
    requires s'.listed <= s.listed
    requires forall id :: Tracked(s', id) ==> Tracked(s, id) && Undisturbed(s.handles[id], s'.handles[id])
    ensures Order(re, s')
  {
    hide TypeOk, OrderOk, Undisturbed, Unmatched, InService;
    forall id, t | Tracked(s', id) ensures OrderOk(re, s', id, t) {
      assert OrderOk(re, s, id, t);
      OrderSame(re, s, s', id, t);
    }
  }

  lemma SameDispatch(s: State, s': State)
    requires s'.inbox == s.inbox && s'.dispatch == s.dispatch
    ensures forall t :: TypeOk(s, t) ==> TypeOk(s', t)
    ensures forall t :: Unmatched(s', t) == Unmatched(s, t)
    ensures forall id, t :: InService(s', id, t) == InService(s, id, t)
  {
    hide Ledger, NoRepeats;
  }

  // # Steps of the channels and dispatchers

  lemma UnmatchedOffer(s: State, s': State, env: Envelope, t: EventType)
    requires s'.inbox == s.inbox[env.eventType := Offer(Inbox(s.inbox, env.eventType), env)]
    requires s'.dispatch == s.dispatch && TypeOk(s, t)
    ensures t != env.eventType ==> Unmatched(s', t) == Unmatched(s, t)
    ensures t == env.eventType ==> IsOffer(Unmatched(s, t), Unmatched(s', t), env)
  {
    hide Ledger, NoRepeats;
    if t == env.eventType && t in s.dispatch {
      var d, c := [s.dispatch[t].env], Inbox(s.inbox, t);
      assert d + (c.buffer + [env]) == (d + c.buffer) + [env];
    }
  }

  lemma TypePublish(s: State, s': State, env: Envelope, t: EventType)
    requires s'.inbox == s.inbox[env.eventType := Offer(Inbox(s.inbox, env.eventType), env)]
    requires s'.dispatch == s.dispatch && TypeOk(s, t)
    ensures TypeOk(s', t)
  {
    hide Ledger, NoRepeats;
    if t == env.eventType {
      OfferKeepsLedger(Inbox(s.inbox, t), env);
    }
  }

  lemma OrderPublish(re: Regexp, s: State, s': State, env: Envelope)
    requires Order(re, s)
    requires s' == s.(inbox := s.inbox[env.eventType := Offer(Inbox(s.inbox, env.eventType), env)])
    ensures Order(re, s')
  {
    hide OrderOk, TypeOk, Offer, Unmatched;
    forall t ensures TypeOk(s', t) {
      TypePublish(s, s', env, t);
    }
    forall id, t | Tracked(s', id) ensures OrderOk(re, s', id, t) {
      assert Tracked(s, id) && TypeOk(s, t) && OrderOk(re, s, id, t);
      UnmatchedOffer(s, s', env, t);
      OrderOffered(re, s, s', id, t, env);
    }
  }

  lemma OrderOffered(re: Regexp, s: State, s': State, id: string, t: EventType, env: Envelope)
    requires id in s.handles && s'.handles == s.handles && s'.listed == s.listed && s'.dispatch == s.dispatch
    requires OrderOk(re, s, id, t)
    requires Unmatched(s', t) == Unmatched(s, t) || IsOffer(Unmatched(s, t), Unmatched(s', t), env)
    ensures OrderOk(re, s', id, t)
  {
    hide Account, AskAccount, Unmatched, Matches, IsOffer;
    var h := s.handles[id];
    var was, c, c' := Inbox(h.origin, t), Unmatched(s, t), Unmatched(s', t);
    assert InService(s', id, t) == InService(s, id, t);
    if c' != c {
      if h.kind.Receive? {
        AccountOffer(Matches(re, id, h), t, was, c, c', h.collected, Full(h), id in s.listed, InService(s, id, t), env);
      } else {
        AskOffer(Matches(re, id, h), was, c, c', h.once.Fresh?, ResolvedBy(h, t), InService(s, id, t), env);
      }
    }
  }

  /** Taking an event into the hand is no step as far as matching is concerned. */
  lemma TakenIsUnmatched(re: Regexp, s: State, t: EventType)
    requires DispatchEnabled(re, s, t, TakeEvent)
    ensures forall u :: Unmatched(ApplyDispatch(re, s, t, TakeEvent), u) == Unmatched(s, u)
    ensures forall id, u :: InService(ApplyDispatch(re, s, t, TakeEvent), id, u) == InService(s, id, u)
  {
    var c := Inbox(s.inbox, t);
    assert [c.buffer[0]] + c.buffer[1..] == c.buffer;
    assert (c.handled + [c.buffer[0]])[..|c.handled|] == c.handled;
  }

  lemma TypeTakes(s: State, s': State, t: EventType, u: EventType)
    requires TypeOk(s, u) && t !in s.dispatch && Inbox(s.inbox, t).buffer != []
    requires var c := Inbox(s.inbox, t);
             s' == s.(inbox := s.inbox[t := Take(c)], dispatch := s.dispatch[t := Dispatch(c.buffer[0], false, [], [])])
    ensures TypeOk(s', u)
  {
    hide Ledger;
    if u == t {
      var c := Inbox(s.inbox, t);
      TakeKeepsLedger(c);
      assert forall i :: 0 <= i < |Take(c).buffer| ==> Take(c).buffer[i] == c.buffer[i + 1];
      assert Take(c).handled[|Take(c).handled| - 1] == c.buffer[0];
    }
  }

  lemma OrderTakes(re: Regexp, s: State, t: EventType)
    requires Order(re, s) && DispatchEnabled(re, s, t, TakeEvent)
    ensures Order(re, ApplyDispatch(re, s, t, TakeEvent))
  {
    var s' := ApplyDispatch(re, s, t, TakeEvent);
    TakenIsUnmatched(re, s, t);
    hide OrderOk, Unmatched, InService, Ledger, Undisturbed;
    forall u ensures TypeOk(s', u) {
      assert TypeOk(s, u);
      TypeTakes(s, s', t, u);
    }
    hide TypeOk;
    forall id | Tracked(s', id) ensures Undisturbed(s.handles[id], s'.handles[id]) {
      SameUndisturbed(s.handles[id]);
    }
    OrderQuiet(re, s, s');
  }

  lemma SameUndisturbed(h: Handle)
    ensures Undisturbed(h, h)
  {
  }

  /** Matching takes the oldest unmatched event and hands it to exactly the handles that are
      listed and want it. */
  lemma MatchFrame(re: Regexp, s: State, t: EventType, asks: seq<string>, receives: seq<string>)
    requires Inv(re, s) && DispatchEnabled(re, s, t, Match(asks, receives)) && TypeOk(s, t)
    ensures var s' := ApplyDispatch(re, s, t, Match(asks, receives));
            && s'.handles == s.handles && s'.listed == s.listed && s'.inbox == s.inbox
            && s'.dispatch == s.dispatch[t := Dispatch(s.dispatch[t].env, true, asks, receives)]
            && Unmatched(s, t).buffer != [] && Unmatched(s, t).buffer[0] == s.dispatch[t].env
            && Unmatched(s', t) == Take(Unmatched(s, t))
            && NoRepeats(asks) && NoRepeats(receives)
            && (forall u :: u != t ==> Unmatched(s', u) == Unmatched(s, u))
            && (forall id, u :: u != t ==> InService(s', id, u) == InService(s, id, u))
            && (forall id :: InService(s, id, t) == None)
  {
    hide Accepts, Inv, Ledger;
    var c, env := Inbox(s.inbox, t), s.dispatch[t].env;
    assert c.handled[..|c.handled| - 1] + [env] == c.handled;
    assert ([env] + c.buffer)[1..] == c.buffer;
  }

  lemma MatchedWants(re: Regexp, s: State, t: EventType, asks: seq<string>, receives: seq<string>, id: string)
    requires Inv(re, s) && DispatchEnabled(re, s, t, Match(asks, receives)) && id in s.handles
    ensures var h, env := s.handles[id], s.dispatch[t].env;
            id in asks || id in receives <==> id in s.listed && Matches(re, id, h)(env)
    ensures s.handles[id].published && s.handles[id].once.Fresh? ==> id in s.listed
  {
    MatchesAccepts(re, id, s.handles[id], s.dispatch[t].env);
    assert HandleOk(re, id, s.handles[id], id in s.listed, RowOf(s.rows, id));
    assert s.handles[id].kind == Ask || s.handles[id].kind == Kind.Receive;
    hide Accepts, Matches, DispatchOk, SweepOk;
  }

  lemma OrderMatch(re: Regexp, s: State, t: EventType, asks: seq<string>, receives: seq<string>)
    requires Inv(re, s) && Order(re, s) && DispatchEnabled(re, s, t, Match(asks, receives))
    ensures Order(re, ApplyDispatch(re, s, t, Match(asks, receives)))
  {
    assert t in s.dispatch;
    hide OrderOk, Unmatched, InService, ApplyDispatch, DispatchEnabled, Inv, Undisturbed, Ledger, NoRepeats;
    var s' := ApplyDispatch(re, s, t, Match(asks, receives));
    assert TypeOk(s, t);
    MatchFrame(re, s, t, asks, receives);
    forall u ensures TypeOk(s', u) {
      assert TypeOk(s, u);
    }
    hide TypeOk;
    forall id, u | Tracked(s', id) ensures OrderOk(re, s', id, u) {
      assert Tracked(s, id) && OrderOk(re, s, id, u);
      if u != t {
        SameUndisturbed(s.handles[id]);
        OrderSame(re, s, s', id, u);
      } else {
        MatchedWants(re, s, t, asks, receives, id);
        OrderMatched(re, s, s', t, id);
      }
    }
  }

  lemma OrderMatched(re: Regexp, s: State, s': State, t: EventType, id: string)
    requires id in s.handles && s'.handles == s.handles && s'.listed == s.listed
    requires OrderOk(re, s, id, t) && InService(s, id, t) == None && Unmatched(s, t).buffer != []
    requires Unmatched(s', t) == Take(Unmatched(s, t))
    requires t in s'.dispatch && s'.dispatch[t].env == Unmatched(s, t).buffer[0]
    requires var h, env := s.handles[id], s'.dispatch[t].env;
             id in s'.dispatch[t].asks || id in s'.dispatch[t].receives <==> id in s.listed && Matches(re, id, h)(env)
    requires s.handles[id].once.Fresh? ==> id in s.listed
    ensures OrderOk(re, s', id, t)
  {
    hide Account, AskAccount, Unmatched, Matches, Full, Take;
    var h := s.handles[id];
    var was, c := Inbox(h.origin, t), Unmatched(s, t);
    if h.kind.Receive? {
      AccountTake(Matches(re, id, h), t, was, c, h.collected, Full(h), id in s.listed);
    } else {
      AskTake(Matches(re, id, h), was, c, h.once.Fresh?, ResolvedBy(h, t));
    }
  }

  // # Steps that serve a handle

  /** Dropping the head of a list of distinct ids. */
  lemma HeadAndTail(xs: seq<string>, x: string)
    requires xs != [] && NoRepeats(xs)
    ensures NoRepeats(xs[1..])
    ensures x in xs[1..] <==> x in xs && x != xs[0]
  {
    if x in xs && x != xs[0] {
      var i :| 0 <= i < |xs| && xs[i] == x;
      assert xs[1..][i - 1] == x;
    }
  }

  lemma OrderAskWins(re: Regexp, s: State, t: EventType)
    requires Inv(re, s) && Order(re, s) && DispatchEnabled(re, s, t, AskWins)
    ensures Order(re, ApplyDispatch(re, s, t, AskWins))
  {
    var d, s' := s.dispatch[t], ApplyDispatch(re, s, t, AskWins);
    var me := d.asks[0];
    assert TypeOk(s, t) && DispatchOk(re, s, t);
    assert Serves(re, s, me, Ask, d.env);
    hide OrderOk, Inv, Accepts, Unmatched, InService, TypeOk, DispatchOk;
    SameDispatch(s, s');
    forall id, u | Tracked(s', id) ensures OrderOk(re, s', id, u) {
      assert OrderOk(re, s, id, u);
      if id != me {
        SameUndisturbed(s.handles[id]);
        hide Undisturbed;
        OrderSame(re, s, s', id, u);
      } else {
        OrderWon(re, s, s', t, u);
      }
    }
    hide Undisturbed;
  }

  lemma OrderWon(re: Regexp, s: State, s': State, t: EventType, u: EventType)
    requires t in s.dispatch && s.dispatch[t].asks != [] && s.dispatch[t].env.eventType == t
    requires var d, id := s.dispatch[t], s.dispatch[t].asks[0];
             && Serves(re, s, id, Ask, d.env) && OrderOk(re, s, id, u) && s.handles[id].once.Fresh?
             && id in s'.handles && s'.handles[id] == Win(s.handles[id], Matched(d.env))
    requires Unmatched(s', u) == Unmatched(s, u)
    requires s'.dispatch == s.dispatch
    ensures OrderOk(re, s', s.dispatch[t].asks[0], u)
  {
    var d, id := s.dispatch[t], s.dispatch[t].asks[0];
    var h := s.handles[id];
    MatchesAccepts(re, id, h, d.env);
    hide Accepts, Carried, Done, Select, Unmatched, AskAccount;
    var was, c, p := Inbox(h.origin, u), Unmatched(s, u), Matches(re, id, h);
    assert Matches(re, id, s'.handles[id]) == p && InService(s', id, u) == InService(s, id, u);
    if u == t {
      AskWon(p, was, c, d.env);
    } else {
      AskShut(p, was, c, InService(s, id, u));
    }
  }

  /** Being completed otherwise leaves nothing to account for. */
  lemma AskShut(accepts: Envelope -> bool, was: Channel, c: Channel, pending: Option<Envelope>)
    requires AskAccount(accepts, was, c, true, None, pending)
    ensures AskAccount(accepts, was, c, false, None, pending)
  {
  }

  lemma OrderAskReturns(re: Regexp, s: State, t: EventType)
    requires Inv(re, s) && Order(re, s) && DispatchEnabled(re, s, t, AskReturns)
    ensures Order(re, ApplyDispatch(re, s, t, AskReturns))
  {
    var d, s' := s.dispatch[t], ApplyDispatch(re, s, t, AskReturns);
    var me := d.asks[0];
    assert TypeOk(s, t) && DispatchOk(re, s, t);
    assert Serves(re, s, me, Ask, d.env);
    hide OrderOk, Inv, Accepts, Ledger, Undisturbed, DispatchOk, Unmatched;
    DispatchShrinks(s, s', t);
    forall u ensures TypeOk(s', u) {
      assert TypeOk(s, u);
      HeadAndTail(d.asks, me);
    }
    assert me !in d.receives by {
      AskIsNoReceive(re, s, t, me);
    }
    forall id ensures id in d.asks[1..] <==> id in d.asks && id != me {
      HeadAndTail(d.asks, id);
    }
    hide TypeOk, NoRepeats;
    forall id, u | Tracked(s', id) ensures OrderOk(re, s', id, u) {
      assert OrderOk(re, s, id, u);
      if id != me || u != t {
        SameUndisturbed(s.handles[id]);
        OrderSame(re, s, s', id, u);
      } else {
        OrderReturned(re, s, s', t);
      }
    }
  }

  lemma AskIsNoReceive(re: Regexp, s: State, t: EventType, id: string)
    requires Inv(re, s) && t in s.dispatch && id in s.handles && s.handles[id].kind.Ask?
    ensures id !in s.dispatch[t].receives
  {
    assert DispatchOk(re, s, t);
    hide HandlesOk, SweepOk, Accepts;
  }

  lemma ReceiveIsNoAsk(re: Regexp, s: State, t: EventType, id: string)
    requires Inv(re, s) && t in s.dispatch && id in s.handles && s.handles[id].kind.Receive?
    ensures id !in s.dispatch[t].asks
  {
    assert DispatchOk(re, s, t);
    hide HandlesOk, SweepOk, Accepts;
  }

  lemma DispatchShrinks(s: State, s': State, t: EventType)
    requires s'.inbox == s.inbox && t in s.dispatch && t in s'.dispatch
    requires s'.dispatch == s.dispatch[t := s'.dispatch[t]]
    requires s'.dispatch[t].env == s.dispatch[t].env && s'.dispatch[t].matched == s.dispatch[t].matched
    ensures forall u :: Unmatched(s', u) == Unmatched(s, u)
    ensures forall id, u :: u != t ==> InService(s', id, u) == InService(s, id, u)
  {
  }

  lemma OrderReturned(re: Regexp, s: State, s': State, t: EventType)
    requires t in s.dispatch && t in s'.dispatch && s.dispatch[t].asks != [] && s'.dispatch[t].env == s.dispatch[t].env
    requires var id := s.dispatch[t].asks[0];
             && id in s.handles && s'.handles == s.handles && s.handles[id].kind.Ask? && s.handles[id].once.Finished?
             && OrderOk(re, s, id, t) && id !in s'.dispatch[t].asks && id !in s'.dispatch[t].receives
    requires Unmatched(s', t) == Unmatched(s, t)
    ensures OrderOk(re, s', s.dispatch[t].asks[0], t)
  {
    hide AskAccount, Unmatched, Matches;
    var id := s.dispatch[t].asks[0];
    var h := s.handles[id];
    AskServed(Matches(re, id, h), Inbox(h.origin, t), Unmatched(s, t), ResolvedBy(h, t), s.dispatch[t].env);
  }

  lemma CollectFrame(re: Regexp, s: State, t: EventType)
    requires DispatchEnabled(re, s, t, CollectNext)
    ensures var d, s' := s.dispatch[t], ApplyDispatch(re, s, t, CollectNext);
            && d.receives != [] && d.receives[0] in s.handles
            && s'.inbox == s.inbox && s'.listed == s.listed
            && s'.handles == s.handles[d.receives[0] := Collect(s.handles[d.receives[0]], d.env)]
            && s'.dispatch == s.dispatch[t := d.(receives := d.receives[1..])]
  {
    hide Collect;
  }

  lemma CollectIdentity(h: Handle, env: Envelope)
    ensures var h' := Collect(h, env);
            && h'.origin == h.origin && h'.limit == h.limit && h'.filter == h.filter
            && h'.accountID == h.accountID && h'.published == h.published && h'.kind == h.kind
            && h'.collected == (if Full(h) then h.collected else h.collected + [env])
            && (Full(h) ==> Full(h'))
  {
  }

  lemma OrderCollect(re: Regexp, s: State, t: EventType)
    requires Inv(re, s) && Order(re, s) && DispatchEnabled(re, s, t, CollectNext)
    ensures Order(re, ApplyDispatch(re, s, t, CollectNext))
  {
    hide OrderOk, Accepts, Collect, ApplyDispatch, Unmatched, Ledger, Undisturbed;
    var s' := ApplyDispatch(re, s, t, CollectNext);
    CollectFrame(re, s, t);
    var d := s.dispatch[t];
    var me := d.receives[0];
    assert TypeOk(s, t) && DispatchOk(re, s, t);
    assert Serves(re, s, me, Kind.Receive, d.env);
    hide DispatchOk, DispatchEnabled, Inv;
    ReceiveIsNoAsk(re, s, t, me);
    CollectIdentity(s.handles[me], d.env);
    DispatchShrinks(s, s', t);
    forall u ensures TypeOk(s', u) {
      assert TypeOk(s, u);
      HeadAndTail(d.receives, me);
    }
    forall id ensures id in d.receives[1..] <==> id in d.receives && id != me {
      HeadAndTail(d.receives, id);
    }
    hide TypeOk, NoRepeats;
    forall id, u | Tracked(s', id) ensures OrderOk(re, s', id, u) {
      assert Tracked(s, id) && OrderOk(re, s, id, u);
      if id != me {
        SameUndisturbed(s.handles[id]);
        OrderSame(re, s, s', id, u);
      } else {
        OrderCollected(re, s, s', t, u);
      }
    }
  }

  /** The served receive's account for type u. */
  lemma OrderCollected(re: Regexp, s: State, s': State, t: EventType, u: EventType)
    requires t in s.dispatch && s.dispatch[t].receives != [] && s.dispatch[t].env.eventType == t
    requires var d, id := s.dispatch[t], s.dispatch[t].receives[0];
             && Serves(re, s, id, Kind.Receive, d.env) && OrderOk(re, s, id, u)
             && id in s'.handles && s'.handles[id] == Collect(s.handles[id], d.env)
             && (id in s'.listed <==> id in s.listed)
             && id !in d.asks && id !in d.receives[1..]
             && s'.dispatch == s.dispatch[t := d.(receives := d.receives[1..])]
    requires Unmatched(s', u) == Unmatched(s, u)
    ensures OrderOk(re, s', s.dispatch[t].receives[0], u)
  {
    var d, id := s.dispatch[t], s.dispatch[t].receives[0];
    var h, h' := s.handles[id], s'.handles[id];
    MatchesAccepts(re, id, h, d.env);
    CollectIdentity(h, d.env);
    hide Account, Accepts, Collect, Full, Unmatched;
    var was, c, p := Inbox(h.origin, u), Unmatched(s, u), Matches(re, id, h);
    assert Matches(re, id, h') == p;
    hide Matches;
    if u == t {
      assert InService(s, id, u) == Some(d.env) && InService(s', id, u) == None;
      AccountCollect(p, t, was, c, h.collected, Full(h), Full(h'), id in s.listed, d.env);
    } else {
      assert InService(s', id, u) == InService(s, id, u);
      AccountOther(p, u, was, c, h.collected, Full(h), Full(h'), id in s.listed, InService(s, id, u), d.env);
    }
  }

  lemma OrderReturn(re: Regexp, s: State, t: EventType)
    requires Order(re, s) && DispatchEnabled(re, s, t, Return)
    ensures Order(re, ApplyDispatch(re, s, t, Return))
  {
    var s' := ApplyDispatch(re, s, t, Return);
    assert forall u :: Unmatched(s', u) == Unmatched(s, u);
    assert forall id, u :: InService(s', id, u) == InService(s, id, u);
    hide OrderOk, Ledger, NoRepeats, Unmatched, InService, Undisturbed;
    forall u ensures TypeOk(s', u) {
      assert TypeOk(s, u);
    }
    hide TypeOk;
    forall id | Tracked(s', id) ensures Undisturbed(s.handles[id], s'.handles[id]) {
      SameUndisturbed(s.handles[id]);
    }
    OrderQuiet(re, s, s');
  }

  // # Steps of handles

  lemma OriginOf(s: State, t: EventType)
    ensures Inbox(AllUnmatched(s), t) == Unmatched(s, t)
  {
  }

  /** List starts a handle's account with nothing seen and nothing got. */
  lemma OrderList(re: Regexp, s: State, id: string)
    requires Inv(re, s) && Order(re, s) && HandleEnabled(s, id, List)
    ensures Order(re, ApplyHandle(s, id, List))
  {
    var s' := ApplyHandle(s, id, List);
    var h' := s'.handles[id];
    assert HandleOk(re, id, s.handles[id], id in s.listed, RowOf(s.rows, id));
    assert h'.collected == [] && h'.origin == AllUnmatched(s) && h'.once.Fresh? && id in s'.listed;
    hide Inv, HandleOk, OrderOk, Unmatched, Accepts, AllUnmatched, TypeOk, Undisturbed, RowOf;
    SameDispatch(s, s');
    forall j, t | Tracked(s', j) ensures OrderOk(re, s', j, t) {
      if j == id {
        OriginOf(s, t);
        UnpublishedNotPending(re, s, id, t);
        OrderListed(re, s', id, t);
      } else {
        assert s'.handles[j] == s.handles[j] && Tracked(s, j) && OrderOk(re, s, j, t);
        assert j in s'.listed ==> j in s.listed;
        SameUndisturbed(s.handles[j]);
        OrderSame(re, s, s', j, t);
      }
    }
  }

  lemma UnpublishedNotPending(re: Regexp, s: State, id: string, t: EventType)
    requires Inv(re, s) && id in s.handles && !s.handles[id].published
    ensures InService(s, id, t) == None
  {
    assert DispatchOk(re, s, t);
    hide HandlesOk, SweepOk, Accepts;
  }

  lemma OrderListed(re: Regexp, s: State, id: string, t: EventType)
    requires id in s.handles && Inbox(s.handles[id].origin, t) == Unmatched(s, t) && InService(s, id, t) == None
    requires s.handles[id].collected == [] && s.handles[id].once.Fresh? && id in s.listed
    ensures OrderOk(re, s, id, t)
  {
    hide Account, AskAccount, Unmatched, Matches, Full;
    var h := s.handles[id];
    AccountStart(Matches(re, id, h), t, Unmatched(s, t), Full(h));
    AskStart(Matches(re, id, h), Unmatched(s, t), true);
  }

  lemma HandleUndisturbed(s: State, id: string, act: HandleAction)
    requires HandleEnabled(s, id, act) && !act.List?
    ensures Undisturbed(s.handles[id], ApplyHandle(s, id, act).handles[id])
    ensures ApplyHandle(s, id, act).listed <= s.listed
  {
  }

  /** A step on one handle that leaves its account alone. */
  lemma QuietHandle(re: Regexp, s: State, s': State, id: string)
    requires Order(re, s) && id in s.handles && id in s'.handles && s'.handles == s.handles[id := s'.handles[id]]
    requires Undisturbed(s.handles[id], s'.handles[id])
    requires s'.inbox == s.inbox && s'.dispatch == s.dispatch && s'.listed <= s.listed
    ensures Order(re, s')
  {
    hide OrderOk, TypeOk, Unmatched, InService, Undisturbed;
    SameDispatch(s, s');
    forall j | Tracked(s', j) ensures Tracked(s, j) && Undisturbed(s.handles[j], s'.handles[j]) {
      SameUndisturbed(s.handles[j]);
      UndisturbedPublished(s.handles[id], s'.handles[id]);
    }
    assert forall t :: TypeOk(s', t);
    OrderQuiet(re, s, s');
  }

  lemma UndisturbedPublished(h: Handle, h': Handle)
    requires Undisturbed(h, h')
    ensures h'.published == h.published
  {
  }

  /** Steps that change no published handle at all. */
  lemma QuietElse(re: Regexp, s: State, s': State)
    requires Order(re, s) && s'.inbox == s.inbox && s'.dispatch == s.dispatch && s'.listed <= s.listed
    requires forall id :: Tracked(s', id) ==> Tracked(s, id) && s'.handles[id] == s.handles[id]
    ensures Order(re, s')
  {
    hide OrderOk, TypeOk, Unmatched, InService, Undisturbed;
    SameDispatch(s, s');
    forall j | Tracked(s', j) ensures Undisturbed(s.handles[j], s'.handles[j]) {
      SameUndisturbed(s.handles[j]);
    }
    assert forall t :: TypeOk(s', t);
    OrderQuiet(re, s, s');
  }

  lemma WinUndisturbed(h: Handle)
    requires h.once.Fresh?
    ensures Undisturbed(h, Win(h, OnTimeout(h)))
  {
  }

  // # Over runs

  lemma OrderDispatch(re: Regexp, s: State, t: EventType, call: DispatchAction)
    requires Inv(re, s) && Order(re, s) && DispatchEnabled(re, s, t, call)
    ensures Order(re, ApplyDispatch(re, s, t, call))
  {
    hide Inv, Order, ApplyDispatch, DispatchEnabled;
    match call
    case TakeEvent => OrderTakes(re, s, t);
    case Match(asks, receives) => OrderMatch(re, s, t, asks, receives);
    case AskWins => OrderAskWins(re, s, t);
    case AskReturns => OrderAskReturns(re, s, t);
    case CollectNext => OrderCollect(re, s, t);
    case Return => OrderReturn(re, s, t);
  }

  lemma OrderHandle(re: Regexp, s: State, id: string, act: HandleAction)
    requires Inv(re, s) && Order(re, s) && HandleEnabled(s, id, act)
    ensures Order(re, ApplyHandle(s, id, act))
  {
    hide Inv, Order, Undisturbed;
    if act.List? {
      OrderList(re, s, id);
    } else {
      HandleFrame(s, id, act);
      HandleUndisturbed(s, id, act);
      hide ApplyHandle, HandleEnabled;
      QuietHandle(re, s, ApplyHandle(s, id, act), id);
    }
  }

  lemma OrderStep(re: Regexp, s: State, step: Step)
    requires Inv(re, s) && Order(re, s) && Enabled(re, s, step)
    ensures Order(re, Apply(re, s, step))
  {
    hide Inv, ApplyHandle, HandleEnabled, ApplyDispatch, DispatchEnabled, Order, Pruned, UnixMilli, Win, Undisturbed;
    match step
    case OnHandle(id, act) => OrderHandle(re, s, id, act);
    case OnDispatch(t, call) => OrderDispatch(re, s, t, call);
    case Publish(env) => OrderPublish(re, s, Apply(re, s, step), env);
    case SweepWins =>
      var id := s.sweep.expired[0];
      WinUndisturbed(s.handles[id]);
      QuietHandle(re, s, Apply(re, s, step), id);
    case _ => QuietElse(re, s, Apply(re, s, step));
  }

  lemma {:induction false} OrderAlways(re: Regexp, steps: seq<Step>, states: seq<State>, i: nat)
    requires IsRun(re, steps, states) && i < |states|
    ensures Order(re, states[i])
  {
    if i == 0 {
      NoOrderYet(re, states[0]);
    } else {
      hide Apply, Enabled, Order, Inv;
      OrderAlways(re, steps, states, i - 1);
      InvAlways(re, steps, states, i - 1);
      OrderStep(re, states[i - 1], steps[i - 1]);
    }
  }

  lemma NoOrderYet(re: Regexp, s: State)
    requires s.handles == map[] && s.inbox == map[] && s.dispatch == map[]
    ensures Order(re, s)
  {
    EmptySubseq<Envelope>([]);
    assert forall t :: TypeOk(s, t);
  }
}
