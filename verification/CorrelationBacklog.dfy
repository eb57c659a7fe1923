/** When does a receive return only events published after its registration? Exactly when no
    event of the backlog matches it: from any other registration a run is constructed that
    returns an earlier event. */
module CorrelationBacklog {
  import opened Events
  import opened Filter
  import opened Subsequence
  import opened QueueStore
  import opened Correlation
  import opened CorrelationInvariant
  import opened CorrelationTheorems
  import opened CorrelationAccount
  import opened CorrelationOrder
  import opened CorrelationDelivery

  // # Paths without publishes

  ghost predicate Path(re: Regexp, s: State, steps: seq<Step>, s': State)
    decreases |steps|
  {
    if steps == [] then s' == s
    else Enabled(re, s, steps[0]) && !steps[0].Publish? && Path(re, Apply(re, s, steps[0]), steps[1..], s')
  }

  ghost predicate Reach(re: Regexp, s: State, s': State) {
    exists steps :: Path(re, s, steps, s')
  }

  lemma {:induction false} PathConcat(re: Regexp, s: State, a: seq<Step>, s1: State, b: seq<Step>, s2: State)
    requires Path(re, s, a, s1) && Path(re, s1, b, s2)
    ensures Path(re, s, a + b, s2)
    decreases |a|
  {
    hide Enabled, Apply;
    if a == [] {
      assert a + b == b;
    } else {
      PathConcat(re, Apply(re, s, a[0]), a[1..], s1, b, s2);
      assert (a + b)[1..] == a[1..] + b;
    }
  }

  lemma ReachHere(re: Regexp, s: State)
    ensures Reach(re, s, s)
  {
    assert Path(re, s, [], s);
  }

  lemma ReachStep(re: Regexp, s: State, step: Step)
    requires Enabled(re, s, step) && !step.Publish?
    ensures Reach(re, s, Apply(re, s, step))
  {
    hide Enabled, Apply;
    var s' := Apply(re, s, step);
    assert Path(re, s', [], s');
    assert [step][1..] == [];
    assert Path(re, s, [step], s');
  }

  lemma ReachTrans(re: Regexp, s: State, s1: State, s2: State)
    requires Reach(re, s, s1) && Reach(re, s1, s2)
    ensures Reach(re, s, s2)
  {
    var a :| Path(re, s, a, s1);
    var b :| Path(re, s1, b, s2);
    hide Path;
    PathConcat(re, s, a, s1, b, s2);
  }

  /** A run goes on along a path. */
  lemma {:induction false} RunExtends(re: Regexp, steps: seq<Step>, states: seq<State>, more: seq<Step>, s': State)
    returns (states': seq<State>)
    requires IsRun(re, steps, states) && Path(re, states[|steps|], more, s')
    ensures IsRun(re, steps + more, states') && states <= states' && states'[|steps + more|] == s'
    ensures forall i :: |steps| <= i < |steps + more| ==> !(steps + more)[i].Publish?
    decreases |more|
  {
    hide Enabled, Apply;
    if more == [] {
      states' := states;
      assert steps + more == steps;
    } else {
      var s1 := Apply(re, states[|steps|], more[0]);
      var steps1, states1 := steps + [more[0]], states + [s1];
      forall i: nat | i < |steps1|
        ensures Enabled(re, states1[i], steps1[i]) && states1[i + 1] == Apply(re, states1[i], steps1[i])
      {
        assert i < |steps| ==> steps1[i] == steps[i];
      }
      states' := RunExtends(re, steps1, states1, more[1..], s');
      assert steps1 + more[1..] == steps + more;
      assert states <= states1;
    }
  }

  // # A dispatcher can always finish

  /** Steps left in the once body. */
  function Rank(o: Once): nat {
    match o
    case Fresh => 7
    case Running(_, stage, _) =>
      (match stage case Snapshot => 6 case Emit => 5 case CloseDone => 4 case Remove => 3 case Update => 2)
    case Finished(_) => 1
  }

  /** The once state of the ask to be served next. */
  function HeadRank(s: State, t: EventType): nat {
    if t in s.dispatch && s.dispatch[t].asks != [] && s.dispatch[t].asks[0] in s.handles
    then Rank(s.handles[s.dispatch[t].asks[0]].once) else 0
  }

  /** A receive, seen through a step of a dispatcher that is serving others. */
  predicate Undelayed(s: State, s': State, t: EventType, r: string)
    requires r in s.handles
  {
    && r in s'.handles && s'.inbox == s.inbox && (r in s'.listed <==> r in s.listed)
    && s'.handles[r] == s.handles[r]
  }

  /** What serving the first ask needs: win its once, run its body, or return. */
  function AskStep(s: State, t: EventType): Step
    requires t in s.dispatch && s.dispatch[t].asks != [] && s.dispatch[t].asks[0] in s.handles
  {
    var a := s.dispatch[t].asks[0];
    if s.handles[a].once.Running? then OnHandle(a, Advance(NoFault))
    else OnDispatch(t, if s.handles[a].once.Fresh? then AskWins else AskReturns)
  }

  lemma AskProgress(re: Regexp, s: State, t: EventType, r: string)
    requires t in INBOUND_TYPES && t in s.dispatch && s.dispatch[t].asks != [] && s.dispatch[t].matched
    requires s.dispatch[t].asks[0] in s.handles && r in s.handles && r != s.dispatch[t].asks[0]
    requires s.handles[s.dispatch[t].asks[0]].once.Fresh? ==> s.handles[s.dispatch[t].asks[0]].kind.Ask?
    ensures Enabled(re, s, AskStep(s, t))
    ensures var s' := Apply(re, s, AskStep(s, t));
            && Undelayed(s, s', t, r)
            && t in s'.dispatch && s'.dispatch[t] == s.dispatch[t].(asks := s'.dispatch[t].asks)
            && (|s'.dispatch[t].asks| < |s.dispatch[t].asks|
                || (s'.dispatch[t].asks == s.dispatch[t].asks && HeadRank(s', t) < HeadRank(s, t)))
  {
    hide ExactlyTheMatches, SetRowState;
    var a := s.dispatch[t].asks[0];
    if s.handles[a].once.Running? {
      hide DispatchEnabled, ApplyDispatch;
    } else {
      hide HandleEnabled, ApplyHandle;
    }
  }

  lemma ServeAsk(re: Regexp, s: State, t: EventType, r: string) returns (s': State)
    requires Inv(re, s) && t in INBOUND_TYPES && t in s.dispatch && s.dispatch[t].matched && s.dispatch[t].asks != []
    requires r in s.handles && s.handles[r].kind.Receive?
    ensures Reach(re, s, s') && Undelayed(s, s', t, r)
    ensures t in s'.dispatch && s'.dispatch[t] == s.dispatch[t].(asks := s'.dispatch[t].asks)
    ensures || |s'.dispatch[t].asks| < |s.dispatch[t].asks|
            || (s'.dispatch[t].asks == s.dispatch[t].asks && HeadRank(s', t) < HeadRank(s, t))
  {
    var d := s.dispatch[t];
    assert DispatchOk(re, s, t) && Serves(re, s, d.asks[0], Ask, d.env);
    hide Inv, DispatchOk, Accepts, Enabled, Apply, HeadRank, Undelayed, Reach;
    AskProgress(re, s, t, r);
    s' := Apply(re, s, AskStep(s, t));
    ReachStep(re, s, AskStep(s, t));
  }

  /** A dispatcher that has matched serves everyone and returns; a receive among them
      collects. */
  lemma {:induction false} Serve(re: Regexp, s: State, t: EventType, r: string) returns (s': State)
    requires Inv(re, s) && Order(re, s) && t in INBOUND_TYPES && t in s.dispatch && s.dispatch[t].matched
    requires r in s.handles && s.handles[r].kind.Receive?
    ensures Inv(re, s') && Order(re, s') && Reach(re, s, s') && t !in s'.dispatch
    ensures r in s'.handles && s'.inbox == s.inbox && (r in s'.listed <==> r in s.listed)
    ensures s'.handles[r] == if r in s.dispatch[t].receives then Collect(s.handles[r], s.dispatch[t].env)
                             else s.handles[r]
    decreases |s.dispatch[t].asks|, HeadRank(s, t), |s.dispatch[t].receives|
  {
    hide Inv, Order, Collect, Reach, Rank;
    var d := s.dispatch[t];
    if d.asks != [] {
      var s1 := ServeAsk(re, s, t, r);
      ReachKeeps(re, s, s1);
      s' := Serve(re, s1, t, r);
      ReachTrans(re, s, s1, s');
    } else if d.receives != [] {
      var s1 := ServeReceive(re, s, t, r);
      ReachKeeps(re, s, s1);
      s' := Serve(re, s1, t, r);
      ReachTrans(re, s, s1, s');
    } else {
      var step := OnDispatch(t, Return);
      assert Enabled(re, s, step);
      s' := Apply(re, s, step);
      ReachStep(re, s, step);
      ReachKeeps(re, s, s');
    }
  }

  lemma ServeReceive(re: Regexp, s: State, t: EventType, r: string) returns (s': State)
    requires Inv(re, s) && Order(re, s) && t in INBOUND_TYPES && t in s.dispatch && s.dispatch[t].matched
    requires s.dispatch[t].asks == [] && s.dispatch[t].receives != []
    requires r in s.handles && s.handles[r].kind.Receive?
    ensures Reach(re, s, s') && t in s'.dispatch
    ensures s'.dispatch[t] == s.dispatch[t].(receives := s.dispatch[t].receives[1..])
    ensures r in s'.handles && s'.inbox == s.inbox && (r in s'.listed <==> r in s.listed) && s'.handles[r].kind.Receive?
    ensures var d := s.dispatch[t];
            && s'.handles[r] == (if r == d.receives[0] then Collect(s.handles[r], d.env) else s.handles[r])
            && (r in d.receives <==> r == d.receives[0] || r in s'.dispatch[t].receives)
            && (r == d.receives[0] ==> r !in s'.dispatch[t].receives)
  {
    var d := s.dispatch[t];
    assert TypeOk(s, t) && DispatchOk(re, s, t) && Serves(re, s, d.receives[0], Kind.Receive, d.env);
    HeadAndTail(d.receives, r);
    HeadAndTail(d.receives, d.receives[0]);
    hide Inv, Order, DispatchOk, TypeOk, Accepts, ExactlyTheMatches;
    var step := OnDispatch(t, CollectNext);
    assert Enabled(re, s, step);
    s' := Apply(re, s, step);
    ReachStep(re, s, step);
    CollectIdentity(s.handles[r], d.env);
    hide Reach, Collect;
  }

  lemma {:induction false} PathKeeps(re: Regexp, s: State, steps: seq<Step>, s': State)
    requires Inv(re, s) && Order(re, s) && Path(re, s, steps, s')
    ensures Inv(re, s') && Order(re, s') && forall t :: Inbox(s'.inbox, t).offered == Inbox(s.inbox, t).offered
    decreases |steps|
  {
    hide Inv, Order, Enabled, Apply;
    if steps != [] {
      var s1 := Apply(re, s, steps[0]);
      InvStep(re, s, steps[0]);
      OrderStep(re, s, steps[0]);
      forall t ensures Inbox(s1.inbox, t).offered == Inbox(s.inbox, t).offered {
        OfferedStep(re, s, steps[0], t);
      }
      PathKeeps(re, s1, steps[1..], s');
    }
  }

  lemma ReachKeeps(re: Regexp, s: State, s': State)
    requires Inv(re, s) && Order(re, s) && Reach(re, s, s')
    ensures Inv(re, s') && Order(re, s') && forall t :: Inbox(s'.inbox, t).offered == Inbox(s.inbox, t).offered
  {
    hide Inv, Order, Path;
    var steps :| Path(re, s, steps, s');
    PathKeeps(re, s, steps, s');
  }

  // # The backlog can be drained

  lemma {:induction false} Enumerate(ids: set<string>) returns (list: seq<string>)
    ensures NoRepeats(list) && forall id :: id in list <==> id in ids
    decreases |ids|
  {
    list := [];
    if ids != {} {
      var x :| x in ids;
      list := Enumerate(ids - {x});
      assert x !in list;
      list := [x] + list;
    }
  }

  lemma TheMatches(re: Regexp, s: State, kind: Kind, env: Envelope) returns (ids: seq<string>)
    ensures ExactlyTheMatches(re, s, kind, env, ids)
  {
    hide Accepts;
    ids := Enumerate(set id | id in s.listed && id in s.handles && s.handles[id].kind == kind
                              && Accepts(re, id, s.handles[id], env));
  }

  /** An open receive that has collected nothing yet. */
  predicate Waits(s: State, r: string) {
    && r in s.handles && r in s.listed
    && var h := s.handles[r];
       h.kind.Receive? && h.published && h.once.Fresh? && h.timer.NotStarted? && h.collected == []
  }

  /** From any backlog with a matching event, the receive's first event comes from it. */
  lemma {:induction false} Drain(re: Regexp, s: State, t: EventType, r: string, m: nat) returns (s': State, x: Envelope)
    requires Inv(re, s) && Order(re, s) && t in INBOUND_TYPES && Waits(s, r) && InService(s, r, t).None?
    requires m < |Backlog(s, t)| && Matches(re, r, s.handles[r])(Backlog(s, t)[m])
    ensures Inv(re, s') && Order(re, s') && Reach(re, s, s') && x.eventType == t
    ensures r in s'.handles && s'.handles[r] == Collect(s.handles[r], x)
    decreases m, if t !in s.dispatch then 1 else if s.dispatch[t].matched then 2 else 0
  {
    hide Inv, Order, Reach, Collect, Matches;
    if t in s.dispatch && s.dispatch[t].matched {
      var s1 := Serve(re, s, t, r);
      s', x := Drain(re, s1, t, r, m);
      ReachTrans(re, s, s1, s');
    } else if t !in s.dispatch {
      var s1 := TakeNext(re, s, t, r);
      s', x := Drain(re, s1, t, r, m);
      ReachTrans(re, s, s1, s');
    } else {
      var s1 := MatchNext(re, s, t, r);
      x := s.dispatch[t].env;
      if r in s1.dispatch[t].receives {
        s' := Serve(re, s1, t, r);
      } else {
        s', x := Drain(re, s1, t, r, m - 1);
      }
      ReachTrans(re, s, s1, s');
    }
  }

  /** The oldest buffered event goes into the dispatcher's hand; the backlog is the same. */
  lemma TakeNext(re: Regexp, s: State, t: EventType, r: string) returns (s': State)
    requires Inv(re, s) && Order(re, s) && t in INBOUND_TYPES && t !in s.dispatch && Backlog(s, t) != [] && Waits(s, r)
    ensures Inv(re, s') && Order(re, s') && Reach(re, s, s')
    ensures t in s'.dispatch && !s'.dispatch[t].matched && Backlog(s', t) == Backlog(s, t)
    ensures Waits(s', r) && s'.handles[r] == s.handles[r] && InService(s', r, t).None?
  {
    hide Inv, Order, Reach, ExactlyTheMatches;
    var step := OnDispatch(t, TakeEvent);
    assert Enabled(re, s, step);
    s' := Apply(re, s, step);
    ReachStep(re, s, step);
    ReachKeeps(re, s, s');
    var c := Inbox(s.inbox, t);
    assert [c.buffer[0]] + c.buffer[1..] == [] + c.buffer;
  }

  /** The event in hand is matched: the receive is to be served with it if it wants it. */
  lemma MatchNext(re: Regexp, s: State, t: EventType, r: string) returns (s': State)
    requires Inv(re, s) && Order(re, s) && t in INBOUND_TYPES && t in s.dispatch && !s.dispatch[t].matched
    requires Waits(s, r)
    ensures Inv(re, s') && Order(re, s') && Reach(re, s, s')
    ensures t in s'.dispatch && s'.dispatch[t].matched && s'.dispatch[t].env == s.dispatch[t].env
    ensures s.dispatch[t].env.eventType == t
    ensures Backlog(s, t) == [s.dispatch[t].env] + Backlog(s', t)
    ensures Waits(s', r) && s'.handles[r] == s.handles[r]
    ensures r in s'.dispatch[t].receives <==> Matches(re, r, s.handles[r])(s.dispatch[t].env)
    ensures r !in s'.dispatch[t].receives ==> InService(s', r, t).None?
  {
    assert TypeOk(s, t);
    hide Inv, Order, Reach, Accepts, TypeOk;
    var env := s.dispatch[t].env;
    var asks := TheMatches(re, s, Ask, env);
    var receives := TheMatches(re, s, Kind.Receive, env);
    var step := OnDispatch(t, Match(asks, receives));
    assert Enabled(re, s, step);
    s' := Apply(re, s, step);
    ReachStep(re, s, step);
    ReachKeeps(re, s, s');
    MatchesAccepts(re, r, s.handles[r], env);
    hide Matches;
    assert [env] + Inbox(s.inbox, t).buffer == [env] + ([] + Inbox(s.inbox, t).buffer);
  }

  // # To the result

  /** From its first event on, a receive can be timed out at once. */
  lemma Expire(re: Regexp, s: State, r: string) returns (s': State)
    requires r in s.handles && s.handles[r].published && s.handles[r].once.Fresh? && s.handles[r].timer.NotStarted?
    requires s.handles[r].kind.Receive?
    ensures Reach(re, s, s') && r in s'.handles && s'.handles[r].kind.Receive?
    ensures s'.handles[r].collected == s.handles[r].collected
    ensures s'.handles[r].once == Running(Window(Expired), Snapshot, [])
  {
    hide Reach, ApplyDispatch, DispatchEnabled;
    var h := s.handles[r];
    var s1 := Apply(re, s, OnHandle(r, StartTimer));
    ReachStep(re, s, OnHandle(r, StartTimer));
    var tick := Tick(if s1.clock < h.deadline then h.deadline - s1.clock else 0);
    var s2 := Apply(re, s1, tick);
    ReachStep(re, s1, tick);
    var s3 := Apply(re, s2, OnHandle(r, FireTimer));
    ReachStep(re, s2, OnHandle(r, FireTimer));
    s' := Apply(re, s3, OnHandle(r, TimeoutWins));
    ReachStep(re, s3, OnHandle(r, TimeoutWins));
    hide Apply, Enabled;
    ReachTrans(re, s, s1, s2);
    ReachTrans(re, s, s2, s3);
    ReachTrans(re, s, s3, s');
  }

  lemma CollectedFirst(h: Handle, x: Envelope)
    requires h.collected == [] && h.kind.Receive?
    ensures var h' := Collect(h, x);
            && h'.collected == [x] && h'.kind == h.kind && h'.published == h.published && h'.once == h.once
            && h'.timer == h.timer && h'.deadline == h.deadline
  {
  }

  /** The state just after registration. */
  lemma JustListed(re: Regexp, s: State, id: string)
    requires Inv(re, s) && HandleEnabled(s, id, List) && s.handles[id].kind.Receive?
    ensures var s' := ApplyHandle(s, id, List);
            && Waits(s', id) && (forall t :: InService(s', id, t).None? && Backlog(s', t) == Backlog(s, t))
            && (forall t :: Inbox(s'.inbox, t) == Inbox(s.inbox, t))
            && Matches(re, id, s'.handles[id]) == Matches(re, id, s.handles[id])
  {
    var s' := ApplyHandle(s, id, List);
    assert HandleOk(re, id, s.handles[id], id in s.listed, RowOf(s.rows, id));
    forall t ensures InService(s', id, t).None? {
      UnpublishedNotPending(re, s, id, t);
    }
    hide Inv, HandleOk, Accepts, AllUnmatched;
  }

  /** If an event of the backlog matches the receive being registered, the run can go on,
      with nothing published any more, so that the receive returns an earlier event. */
  lemma BacklogCanBeReturned(re: Regexp, steps: seq<Step>, states: seq<State>, id: string, t: EventType, m: nat)
    returns (steps': seq<Step>, states': seq<State>, k: nat, x: Envelope)
    requires IsRun(re, steps, states) && steps != [] && steps[|steps| - 1] == OnHandle(id, List)
    requires t in INBOUND_TYPES
    requires var s := states[|steps| - 1];
             && id in s.handles && s.handles[id].kind.Receive?
             && m < |Backlog(s, t)| && Matches(re, id, s.handles[id])(Backlog(s, t)[m])
    ensures IsRun(re, steps', states') && steps <= steps' && states <= states'
    ensures |steps| <= k < |steps'| && SnapshotAt(steps', states', k, id, [x]) && x.eventType == t
    ensures states'[k].handles[id].kind == Kind.Receive
    ensures Inbox(states'[k].inbox, t).offered == Inbox(states[|steps| - 1].inbox, t).offered
  {
    var j := |steps| - 1;
    InvAlways(re, steps, states, j);
    InvAlways(re, steps, states, j + 1);
    OrderAlways(re, steps, states, j + 1);
    assert Enabled(re, states[j], steps[j]) && states[j + 1] == Apply(re, states[j], steps[j]);
    JustListed(re, states[j], id);
    hide IsRun, Enabled, Apply, Inv, Order, Reach, Collect, Backlog, InService, Matches, SnapshotAt, Path;
    var s := states[j + 1];
    var s1;
    s1, x := Drain(re, s, t, id, m);
    CollectedFirst(s.handles[id], x);
    var s2 := Expire(re, s1, id);
    ReachKeeps(re, s, s1);
    ReachKeeps(re, s1, s2);
    ReachTrans(re, s, s1, s2);
    steps', states', k := GoOnToSnapshot(re, steps, states, s2, id, [x]);
  }

  lemma GoOnToSnapshot(re: Regexp, steps: seq<Step>, states: seq<State>, s': State, id: string, events: seq<Envelope>)
    returns (steps': seq<Step>, states': seq<State>, k: nat)
    requires IsRun(re, steps, states) && Reach(re, states[|steps|], s')
    requires id in s'.handles && s'.handles[id].once == Running(Window(Expired), Snapshot, [])
    requires s'.handles[id].collected == events
    ensures IsRun(re, steps', states') && steps <= steps' && states <= states'
    ensures |steps| <= k < |steps'| && SnapshotAt(steps', states', k, id, events) && states'[k] == s'
  {
    var more :| Path(re, states[|steps|], more, s');
    states' := RunExtends(re, steps, states, more, s');
    k := |steps + more|;
    var last := OnHandle(id, Advance(NoFault));
    assert Enabled(re, s', last);
    hide Path;
    steps' := steps + more + [last];
    var s'' := Apply(re, s', last);
    hide Enabled, Apply;
    assert [last][1..] == [] && Path(re, s'', [], s'') && Path(re, s', [last], s'') by {
      LastPath(re, s', last);
    }
    states' := RunExtends(re, steps + more, states', [last], s'');
  }

  lemma LastPath(re: Regexp, s: State, step: Step)
    requires Enabled(re, s, step) && !step.Publish?
    ensures [step][1..] == [] && Path(re, Apply(re, s, step), [], Apply(re, s, step))
    ensures Path(re, s, [step], Apply(re, s, step))
  {
    hide Enabled, Apply;
    assert [step][1..] == [];
    assert Path(re, Apply(re, s, step), [], Apply(re, s, step));
  }

  /** However the run goes on, the receive registered by its last step returns only events of
      type t that were published since, in publish order. */
  ghost predicate ReturnsOnlyLater(re: Regexp, steps: seq<Step>, states: seq<State>, id: string, t: EventType)
    requires steps != [] && |states| == |steps| + 1
  {
    forall steps', states', k, events :: GoesOnTo(re, steps, states, steps', states', k, id, events) ==>
      LaterOnly(states, |steps| - 1, states', k, t, events)
  }

  ghost predicate GoesOnTo(re: Regexp, steps: seq<Step>, states: seq<State>, steps': seq<Step>, states': seq<State>,
                           k: nat, id: string, events: seq<Envelope>) {
    && IsRun(re, steps', states') && steps <= steps' && states <= states'
    && |steps| <= k < |steps'| && SnapshotAt(steps', states', k, id, events)
  }

  ghost predicate LaterOnly(states: seq<State>, j: nat, states': seq<State>, k: nat, t: EventType,
                            events: seq<Envelope>) {
    && j < |states| && k < |states'|
    && var was, now := Inbox(states[j].inbox, t), Inbox(states'[k].inbox, t);
       |was.offered| <= |now.offered| && Subseq(Select(OfType(t), events), now.offered[|was.offered|..])
  }

  /** The exact condition: a receive is sure to return only later events of a type if and only
      if, at its registration, no event of that type's backlog matches it. */
  lemma ReturnsOnlyLaterIff(re: Regexp, steps: seq<Step>, states: seq<State>, id: string, t: EventType)
    requires IsRun(re, steps, states) && steps != [] && steps[|steps| - 1] == OnHandle(id, List)
    requires t in INBOUND_TYPES
    requires var s := states[|steps| - 1]; id in s.handles && s.handles[id].kind.Receive?
    ensures var s := states[|steps| - 1];
            ReturnsOnlyLater(re, steps, states, id, t) <==>
            forall m :: 0 <= m < |Backlog(s, t)| ==> !Matches(re, id, s.handles[id])(Backlog(s, t)[m])
  {
    var s := states[|steps| - 1];
    hide IsRun, Matches, Backlog, SnapshotAt;
    if forall m :: 0 <= m < |Backlog(s, t)| ==> !Matches(re, id, s.handles[id])(Backlog(s, t)[m]) {
      forall steps', states', k, events | GoesOnTo(re, steps, states, steps', states', k, id, events)
        ensures LaterOnly(states, |steps| - 1, states', k, t, events)
      {
        LaterWhenNoBacklog(re, steps, states, steps', states', k, id, t, events);
      }
    } else {
      var m :| 0 <= m < |Backlog(s, t)| && Matches(re, id, s.handles[id])(Backlog(s, t)[m]);
      var steps', states', k, x := BacklogCanBeReturned(re, steps, states, id, t, m);
      assert GoesOnTo(re, steps, states, steps', states', k, id, [x]);
      NothingLater(Inbox(states'[k].inbox, t).offered, x, t);
    }
  }

  lemma NothingLater(offered: seq<Envelope>, x: Envelope, t: EventType)
    requires x.eventType == t
    ensures !Subseq(Select(OfType(t), [x]), offered[|offered|..])
  {
    var none: seq<Envelope> := [];
    assert [x] == none + [x];
    SelectSnoc(OfType(t), none, x);
  }

  lemma LaterWhenNoBacklog(re: Regexp, steps: seq<Step>, states: seq<State>, steps': seq<Step>, states': seq<State>,
                           k: nat, id: string, t: EventType, events: seq<Envelope>)
    requires GoesOnTo(re, steps, states, steps', states', k, id, events)
    requires |states| == |steps| + 1 && steps != [] && steps[|steps| - 1] == OnHandle(id, List)
    requires var s := states[|steps| - 1];
             && id in s.handles && s.handles[id].kind.Receive?
             && forall m :: 0 <= m < |Backlog(s, t)| ==> !Matches(re, id, s.handles[id])(Backlog(s, t)[m])
    ensures LaterOnly(states, |steps| - 1, states', k, t, events)
  {
    var j := |steps| - 1;
    assert states'[j] == states[j] && steps'[j] == steps[j];
    LaterAlways(re, steps', states', j, k, id);
    SameMatches(re, id, states'[j].handles[id], states'[k].handles[id]);
    hide IsRun, Backlog, Matches, Later;
    FreshWhenNoBacklog(re, steps', states', j, k, id, t, events);
    var later := Inbox(states'[k].inbox, t).offered[|Inbox(states[j].inbox, t).offered|..];
    var p := Matches(re, id, states'[k].handles[id]);
    hide SnapshotAt, Select;
    SelectIsSubseq(p, later);
    SubseqTrans(Select(OfType(t), events), Select(p, later), later);
  }

  lemma SameMatches(re: Regexp, id: string, h: Handle, h': Handle)
    requires Later(h, h')
    ensures Matches(re, id, h') == Matches(re, id, h) && h'.kind == h.kind
  {
  }
}
