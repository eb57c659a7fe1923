/** What the manager's methods do to its maps and rows, as paths of the transition system: one
    event routed by a dispatch goroutine, and one sweep, each without interruption. */
module CorrelationRefinement {
  import opened Wrappers
  import opened Events
  import opened Filter
  import Bus
  import opened QueueStore
  import opened Correlation
  import opened CorrelationHandles
  import opened CorrelationBacklog

  // # Completing one handle

  predicate IsOpen(h: Handle) {
    h.published && h.once.Fresh? && h.result == ResultChan([], 0, 0) && h.doneCloses == 0
  }

  /** The state once the body has run to its end. */
  function AfterOnce(s: State, id: string, fault: Fault): State
    requires id in s.handles && s.handles[id].once.Running?
  {
    var h := s.handles[id];
    s.(handles := s.handles[id := OnceBody(h, fault)],
       listed := if h.once.stage.Update? then s.listed else s.listed - {id},
       rows := SetRowState(s.rows, id, FinalState(h.once.outcome), fault))
  }

  /** One step of the body. */
  function Advanced(s: State, id: string, fault: Fault): State
    requires id in s.handles && s.handles[id].once.Running?
  {
    var h := s.handles[id];
    s.(handles := s.handles[id := AdvanceHandle(h, fault)],
       listed := if h.once.stage.Remove? then s.listed - {id} else s.listed,
       rows := if h.once.stage.Update? then SetRowState(s.rows, id, FinalState(h.once.outcome), fault) else s.rows)
  }

  lemma AdvanceReach(re: Regexp, s: State, id: string, fault: Fault)
    requires id in s.handles && s.handles[id].once.Running?
    ensures Reach(re, s, Advanced(s, id, fault))
  {
    hide Reach, SetRowState, AdvanceHandle, ApplyDispatch, DispatchEnabled;
    ReachStep(re, s, OnHandle(id, Advance(fault)));
  }

  lemma AdvanceGoesOn(s: State, id: string, fault: Fault)
    requires id in s.handles && s.handles[id].once.Running?
    ensures var s1 := Advanced(s, id, fault);
            if s1.handles[id].once.Running? then
              && AfterOnce(s1, id, fault) == AfterOnce(s, id, fault)
              && Rank(s1.handles[id].once) < Rank(s.handles[id].once)
            else s1 == AfterOnce(s, id, fault)
  {
    hide SetRowState;
  }

  lemma {:induction false} OnceReach(re: Regexp, s: State, id: string, fault: Fault)
    requires id in s.handles && s.handles[id].once.Running?
    ensures Reach(re, s, AfterOnce(s, id, fault))
    decreases Rank(s.handles[id].once)
  {
    AdvanceGoesOn(s, id, fault);
    AdvanceReach(re, s, id, fault);
    var s1 := Advanced(s, id, fault);
    assert id in s1.handles;
    hide Reach, Advanced, AfterOnce, Rank;
    if s1.handles[id].once.Running? {
      OnceReach(re, s1, id, fault);
      ReachTrans(re, s, s1, AfterOnce(s, id, fault));
    }
  }

  function EndedState(s: State, id: string, o: Outcome, fault: Fault): State
    requires id in s.handles
  {
    s.(handles := s.handles[id := Ended(s.handles[id], o, fault)],
       listed := s.listed - {id},
       rows := SetRowState(s.rows, id, FinalState(o), fault))
  }

  /** From winning once.Do to the end of its body. */
  lemma WonReach(re: Regexp, s: State, id: string, o: Outcome, fault: Fault)
    requires id in s.handles && IsOpen(s.handles[id]) && (o.Window? <==> s.handles[id].kind.Receive?)
    ensures Reach(re, SetHandle(s, id, Win(s.handles[id], o)), EndedState(s, id, o, fault))
  {
    var won := SetHandle(s, id, Win(s.handles[id], o));
    OnceBodyEffect(s.handles[id], o, fault);
    hide Reach, OnceBody, Ended, SetRowState;
    OnceReach(re, won, id, fault);
    assert AfterOnce(won, id, fault) == EndedState(s, id, o, fault);
  }

  // # Completing several

  /** How a handle ends, for each. */
  type Ending = Handle -> Outcome

  function EndAll(handles: map<string, Handle>, ids: seq<string>, ending: Ending, faults: nat -> Fault)
    : map<string, Handle>
  {
    if ids == [] then handles
    else
      var n := |ids| - 1;
      var before := EndAll(handles, ids[..n], ending, faults);
      if ids[n] in before then before[ids[n] := Ended(before[ids[n]], ending(before[ids[n]]), faults(n))] else before
  }

  lemma {:induction false} EndAllElsewhere(handles: map<string, Handle>, ids: seq<string>, ending: Ending,
                                           faults: nat -> Fault, id: string)
    requires id !in ids
    ensures var after := EndAll(handles, ids, ending, faults);
            after.Keys == handles.Keys && (id in handles ==> after[id] == handles[id])
    decreases |ids|
  {
    hide Ended;
    if ids != [] {
      EndAllElsewhere(handles, ids[..|ids| - 1], ending, faults, id);
    }
  }

  lemma {:induction false} EndAllAt(handles: map<string, Handle>, ids: seq<string>, ending: Ending,
                                    faults: nat -> Fault, k: nat)
    requires Distinct(ids) && k < |ids| && ids[k] in handles
    ensures var after := EndAll(handles, ids, ending, faults);
            ids[k] in after && after[ids[k]] == Ended(handles[ids[k]], ending(handles[ids[k]]), faults(k))
    decreases |ids|
  {
    hide Ended;
    var n := |ids| - 1;
    if k == n {
      EndAllElsewhere(handles, ids[..n], ending, faults, ids[n]);
    } else {
      EndAllAt(handles, ids[..n], ending, faults, k);
    }
  }

  function Members(ids: seq<string>): set<string> {
    set id | id in ids
  }

  /** The state after these handles have ended. */
  function AllEnded(s: State, ids: seq<string>, ending: Ending, state: RowState, faults: nat -> Fault): State {
    s.(handles := EndAll(s.handles, ids, ending, faults),
       listed := s.listed - Members(ids),
       rows := SetRows(s.rows, ids, state, faults))
  }

  lemma NoneEnded(s: State, ids: seq<string>, ending: Ending, state: RowState, faults: nat -> Fault)
    ensures AllEnded(s, ids[..0], ending, state, faults) == s
  {
    assert s.listed - Members(ids[..0]) == s.listed;
  }

  /** The handles to end are listed once, open, and end in the row state given. */
  ghost predicate Endable(s: State, ids: seq<string>, ending: Ending, state: RowState) {
    && Distinct(ids)
    && forall i :: 0 <= i < |ids| ==> ids[i] in s.handles && EndsIn(s.handles[ids[i]], ending, state)
  }

  predicate EndsIn(h: Handle, ending: Ending, state: RowState) {
    IsOpen(h) && (ending(h).Window? <==> h.kind.Receive?) && FinalState(ending(h)) == state
  }

  lemma OneMoreEnded(s: State, ids: seq<string>, ending: Ending, state: RowState, faults: nat -> Fault, i: nat)
    requires Endable(s, ids, ending, state) && i < |ids|
    ensures var before := AllEnded(s, ids[..i], ending, state, faults);
            && ids[i] in before.handles && before.handles[ids[i]] == s.handles[ids[i]]
            && EndedState(before, ids[i], ending(s.handles[ids[i]]), faults(i))
               == AllEnded(s, ids[..i + 1], ending, state, faults)
  {
    assert ids[i] !in ids[..i];
    EndAllElsewhere(s.handles, ids[..i], ending, faults, ids[i]);
    assert ids[..i + 1][..i] == ids[..i];
    var before := AllEnded(s, ids[..i], ending, state, faults);
    assert before.listed - {ids[i]} == s.listed - Members(ids[..i + 1]);
    hide Ended, SetRowState;
  }

  // # One event

  function OnMatch(env: Envelope): Ending {
    (h: Handle) => Matched(env)
  }

  /** The dispatch goroutine completes the ask it serves next. */
  lemma ServeOne(re: Regexp, s: State, t: EventType, fault: Fault)
    requires t in INBOUND_TYPES && t in s.dispatch && s.dispatch[t].matched && s.dispatch[t].asks != []
    requires var id := s.dispatch[t].asks[0]; id in s.handles && IsOpen(s.handles[id]) && s.handles[id].kind.Ask?
    ensures var d := s.dispatch[t];
            var s' := EndedState(s, d.asks[0], Matched(d.env), fault);
            Reach(re, s, s'.(dispatch := s.dispatch[t := d.(asks := d.asks[1..])]))
  {
    hide Reach, Ended, SetRowState, HandleEnabled, ApplyHandle;
    var d := s.dispatch[t];
    var id := d.asks[0];
    var won := Apply(re, s, OnDispatch(t, AskWins));
    ReachStep(re, s, OnDispatch(t, AskWins));
    WonReach(re, s, id, Matched(d.env), fault);
    var ended := EndedState(s, id, Matched(d.env), fault);
    ReachTrans(re, s, won, ended);
    EndedIsFinished(s.handles[id], Matched(d.env), fault);
    ReachStep(re, ended, OnDispatch(t, AskReturns));
    ReachTrans(re, s, ended, Apply(re, ended, OnDispatch(t, AskReturns)));
  }

  lemma EndedIsFinished(h: Handle, o: Outcome, fault: Fault)
    ensures Ended(h, o, fault).once.Finished?
  {
  }

  /** After the first i matched asks have been served. */
  function Serving(s: State, t: EventType, faults: nat -> Fault, i: nat): State
    requires t in s.dispatch && i <= |s.dispatch[t].asks|
  {
    var d := s.dispatch[t];
    AllEnded(s, d.asks[..i], OnMatch(d.env), Resolved, faults).(dispatch := s.dispatch[t := d.(asks := d.asks[i..])])
  }

  lemma ServingNext(s: State, t: EventType, faults: nat -> Fault, i: nat)
    requires t in s.dispatch && i < |s.dispatch[t].asks|
    requires Endable(s, s.dispatch[t].asks, OnMatch(s.dispatch[t].env), Resolved)
    ensures var d, before := s.dispatch[t], Serving(s, t, faults, i);
            var rest := before.dispatch[t];
            && rest == d.(asks := d.asks[i..]) && rest.asks[0] == d.asks[i]
            && d.asks[i] in s.handles && EndsIn(s.handles[d.asks[i]], OnMatch(d.env), Resolved)
            && d.asks[i] in before.handles && before.handles[d.asks[i]] == s.handles[d.asks[i]]
            && EndedState(before, d.asks[i], Matched(d.env), faults(i)).(
                 dispatch := before.dispatch[t := rest.(asks := rest.asks[1..])])
               == Serving(s, t, faults, i + 1)
  {
    var d := s.dispatch[t];
    OneMoreEnded(s, d.asks, OnMatch(d.env), Resolved, faults, i);
    assert d.asks[i..][1..] == d.asks[i + 1..];
    hide EndAll, SetRows, Ended, SetRowState, EndsIn;
  }

  lemma {:induction false} AsksReach(re: Regexp, s: State, t: EventType, faults: nat -> Fault, i: nat)
    requires t in INBOUND_TYPES && t in s.dispatch && s.dispatch[t].matched && i <= |s.dispatch[t].asks|
    requires Endable(s, s.dispatch[t].asks, OnMatch(s.dispatch[t].env), Resolved)
    ensures Reach(re, s, Serving(s, t, faults, i))
  {
    var ids := s.dispatch[t].asks;
    if i == 0 {
      NoneEnded(s, ids, OnMatch(s.dispatch[t].env), Resolved, faults);
      assert ids[0..] == ids;
      hide AllEnded, Endable, Reach;
      assert Serving(s, t, faults, 0) == s;
      ReachHere(re, s);
    } else {
      AsksReach(re, s, t, faults, i - 1);
      ServingNext(s, t, faults, i - 1);
      hide Serving, Reach, EndedState, Endable;
      ServeOne(re, Serving(s, t, faults, i - 1), t, faults(i - 1));
      ReachTrans(re, s, Serving(s, t, faults, i - 1), Serving(s, t, faults, i));
    }
  }

  /** The handles after an event has been collected by these. */
  function CollectAt(handles: map<string, Handle>, ids: seq<string>, env: Envelope): map<string, Handle> {
    map id | id in handles :: if id in ids then Collect(handles[id], env) else handles[id]
  }

  /** After the first i matched receives have collected. */
  function CollectingState(s: State, t: EventType, i: nat): State
    requires t in s.dispatch && i <= |s.dispatch[t].receives|
  {
    var d := s.dispatch[t];
    s.(handles := CollectAt(s.handles, d.receives[..i], d.env),
       dispatch := s.dispatch[t := d.(receives := d.receives[i..])])
  }

  lemma CollectingNext(s: State, t: EventType, i: nat)
    requires t in s.dispatch && i < |s.dispatch[t].receives| && Distinct(s.dispatch[t].receives)
    requires s.dispatch[t].receives[i] in s.handles
    ensures var d, before := s.dispatch[t], CollectingState(s, t, i);
            var id, rest := d.receives[i], before.dispatch[t];
            && rest == d.(receives := d.receives[i..]) && rest.receives[0] == id
            && id in before.handles && before.handles[id] == s.handles[id]
            && SetHandle(before, id, Collect(before.handles[id], d.env)).(
                 dispatch := before.dispatch[t := rest.(receives := rest.receives[1..])])
               == CollectingState(s, t, i + 1)
  {
    hide Collect;
    var ids := s.dispatch[t].receives;
    assert ids[i..][1..] == ids[i + 1..] && ids[i] !in ids[..i];
    assert ids[..i + 1] == ids[..i] + [ids[i]];
    assert forall id :: id in ids[..i + 1] <==> id in ids[..i] || id == ids[i];
  }

  lemma NoneCollected(s: State, t: EventType)
    requires t in s.dispatch
    ensures CollectingState(s, t, 0) == s
  {
    var ids := s.dispatch[t].receives;
    assert ids[0..] == ids && CollectAt(s.handles, ids[..0], s.dispatch[t].env) == s.handles;
  }

  lemma {:induction false} CollectReach(re: Regexp, s: State, t: EventType, i: nat)
    requires t in INBOUND_TYPES && t in s.dispatch && s.dispatch[t].matched && s.dispatch[t].asks == []
    requires Distinct(s.dispatch[t].receives) && forall id :: id in s.dispatch[t].receives ==> id in s.handles
    requires i <= |s.dispatch[t].receives|
    ensures Reach(re, s, CollectingState(s, t, i))
  {
    if i == 0 {
      NoneCollected(s, t);
      ReachHere(re, s);
    } else {
      CollectReach(re, s, t, i - 1);
      assert s.dispatch[t].receives[i - 1] in s.handles;
      CollectingNext(s, t, i - 1);
      hide Reach, CollectingState, Collect, HandleEnabled, ApplyHandle, Distinct;
      var before := CollectingState(s, t, i - 1);
      ReachStep(re, before, OnDispatch(t, CollectNext));
      ReachTrans(re, s, before, CollectingState(s, t, i));
    }
  }

  // # What the manager's values show

  predicate ShowsAsk(h: Handle, a: AskView) {
    && IsOpen(h) && h.kind.Ask?
    && h.accountID == a.accountID && h.filter == a.filter && h.deadline == a.timeoutAt
  }

  predicate ShowsReceive(h: Handle, r: ReceiveView) {
    && IsOpen(h) && h.kind.Receive?
    && h.accountID == r.accountID && h.filter == r.filter && h.deadline == r.timeoutAt
    && h.limit == r.limit && h.collected == r.collected
  }

  /** The protocol's state has the manager's rows, and lists the handles of its maps, open. */
  ghost predicate Shows(s: State, v: View) {
    && s.rows == v.rows && v.asks.Keys !! v.receives.Keys && s.listed == v.asks.Keys + v.receives.Keys
    && (forall id :: id in v.asks ==> id in s.handles && ShowsAsk(s.handles[id], v.asks[id]))
    && (forall id :: id in v.receives ==> id in s.handles && ShowsReceive(s.handles[id], v.receives[id]))
  }

  // # One registration

  /** The state after inserting the row, listing the handle and starting its timer. */
  function RegisteredState(s: State, id: string, h: Handle): State {
    s.(handles := s.handles[id := h.(published := true, origin := AllUnmatched(s), timer := Armed)],
       listed := s.listed + {id},
       rows := s.rows[id := CorrelationRow(Pending, UnixMilli(h.deadline))])
  }

  lemma RegisterReach(re: Regexp, s: State, id: string, kind: Kind, accountID: string, filter: Option<CompiledNode>,
                      deadline: int, limit: int)
    requires id !in s.handles && id !in s.rows
    ensures Reach(re, s, RegisteredState(s, id, NewHandle(kind, accountID, filter, deadline, limit)))
  {
    hide Reach, AllUnmatched, UnixMilli, ApplyDispatch, DispatchEnabled;
    var insert := Insert(id, kind, accountID, filter, deadline, limit, NoFault);
    var s1 := Apply(re, s, insert);
    ReachStep(re, s, insert);
    var s2 := Apply(re, s1, OnHandle(id, List));
    ReachStep(re, s1, OnHandle(id, List));
    ReachTrans(re, s, s1, s2);
    var s3 := Apply(re, s2, OnHandle(id, StartTimer));
    ReachStep(re, s2, OnHandle(id, StartTimer));
    ReachTrans(re, s, s2, s3);
    SameUnmatched(s, s1);
    assert s3 == RegisteredState(s, id, NewHandle(kind, accountID, filter, deadline, limit));
  }

  lemma SameUnmatched(s: State, s': State)
    requires s'.inbox == s.inbox && s'.dispatch == s.dispatch
    ensures AllUnmatched(s') == AllUnmatched(s)
  {
  }

  lemma NewHandleShows(accountID: string, filter: Option<CompiledNode>, deadline: int, limit: int,
                       origin: map<EventType, Bus.Channel>)
    ensures var h := NewHandle(Ask, accountID, filter, deadline, 0)
                       .(published := true, origin := origin, timer := Armed);
            ShowsAsk(h, AskView(accountID, filter, deadline))
    ensures var h := NewHandle(Kind.Receive, accountID, filter, deadline, limit).(
                       published := true, origin := origin, timer := Armed);
            ShowsReceive(h, ReceiveView(accountID, filter, deadline, limit, []))
  {
  }

  lemma RegisteredShowsAsk(s: State, v: View, id: string, h: Handle, a: AskView)
    requires Shows(s, v) && id !in s.handles
    requires ShowsAsk(h.(published := true, origin := AllUnmatched(s), timer := Armed), a) && h.deadline == a.timeoutAt
    ensures Shows(RegisteredState(s, id, h), AskRegistered(v, id, a.accountID, a.filter, a.timeoutAt))
  {
    hide ShowsAsk, ShowsReceive, AllUnmatched;
    var s' := RegisteredState(s, id, h);
    assert id !in v.asks && id !in v.receives;
    assert s'.listed == v.asks.Keys + v.receives.Keys + {id};
  }

  lemma RegisteredShowsReceive(s: State, v: View, id: string, h: Handle, r: ReceiveView)
    requires Shows(s, v) && id !in s.handles && r.collected == []
    requires ShowsReceive(h.(published := true, origin := AllUnmatched(s), timer := Armed), r)
    requires h.deadline == r.timeoutAt
    ensures Shows(RegisteredState(s, id, h), ReceiveRegistered(v, id, r.accountID, r.filter, r.timeoutAt, r.limit))
  {
    hide ShowsAsk, ShowsReceive, AllUnmatched;
    var s' := RegisteredState(s, id, h);
    assert id !in v.asks && id !in v.receives;
    assert s'.listed == v.asks.Keys + v.receives.Keys + {id};
  }

  /** A successful registration is a path of the protocol: the row, the map entry, the timer. */
  lemma RegisterAskFollowsProtocol(re: Regexp, s: State, v: View, id: string, accountID: string,
                                   filter: Option<CompiledNode>, timeoutAt: int) returns (s': State)
    requires Shows(s, v) && id !in s.handles && id !in s.rows
    ensures Reach(re, s, s') && Shows(s', AskRegistered(v, id, accountID, filter, timeoutAt))
    ensures id in s'.handles && s'.handles == s.handles[id := s'.handles[id]] && s'.handles[id].timer.Armed?
  {
    RegisterReach(re, s, id, Ask, accountID, filter, timeoutAt, 0);
    s' := RegisteredState(s, id, NewHandle(Ask, accountID, filter, timeoutAt, 0));
    NewHandleShows(accountID, filter, timeoutAt, 0, AllUnmatched(s));
    RegisteredShowsAsk(s, v, id, NewHandle(Ask, accountID, filter, timeoutAt, 0),
                       AskView(accountID, filter, timeoutAt));
    hide Reach, AllUnmatched, Shows;
  }

  lemma RegisterReceiveFollowsProtocol(re: Regexp, s: State, v: View, id: string, accountID: string,
                                       filter: Option<CompiledNode>, timeoutAt: int, limit: int) returns (s': State)
    requires Shows(s, v) && id !in s.handles && id !in s.rows
    ensures Reach(re, s, s') && Shows(s', ReceiveRegistered(v, id, accountID, filter, timeoutAt, limit))
    ensures id in s'.handles && s'.handles == s.handles[id := s'.handles[id]] && s'.handles[id].timer.Armed?
  {
    RegisterReach(re, s, id, Kind.Receive, accountID, filter, timeoutAt, limit);
    s' := RegisteredState(s, id, NewHandle(Kind.Receive, accountID, filter, timeoutAt, limit));
    NewHandleShows(accountID, filter, timeoutAt, limit, AllUnmatched(s));
    RegisteredShowsReceive(s, v, id, NewHandle(Kind.Receive, accountID, filter, timeoutAt, limit),
                           ReceiveView(accountID, filter, timeoutAt, limit, []));
    hide Reach, AllUnmatched, Shows;
  }

  // # One event: matching

  lemma MatchesAreExact(re: Regexp, s: State, v: View, v': View, env: Envelope, askIDs: seq<string>,
                        receiveIDs: seq<string>, faults: nat -> Fault)
    requires Shows(s, v) && Routed(re, v, v', env, askIDs, receiveIDs, faults)
    ensures ExactlyTheMatches(re, s, Ask, env, askIDs) && ExactlyTheMatches(re, s, Kind.Receive, env, receiveIDs)
  {
    hide SetRows;
    forall id
      ensures id in askIDs <==>
              id in s.listed && id in s.handles && s.handles[id].kind == Ask && Accepts(re, id, s.handles[id], env)
      ensures id in receiveIDs <==>
              id in s.listed && id in s.handles && s.handles[id].kind == Kind.Receive
              && Accepts(re, id, s.handles[id], env)
    {
    }
  }

  /** The state after the matching step. */
  function MatchedState(s: State, t: EventType, askIDs: seq<string>, receiveIDs: seq<string>): State
    requires t in s.dispatch
  {
    s.(dispatch := s.dispatch[t := Dispatch(s.dispatch[t].env, true, askIDs, receiveIDs)])
  }

  /** The state after an event has been routed to these. */
  function RoutedState(s: State, t: EventType, askIDs: seq<string>, receiveIDs: seq<string>, faults: nat -> Fault)
    : State
    requires t in s.dispatch
  {
    var ended := AllEnded(s, askIDs, OnMatch(s.dispatch[t].env), Resolved, faults);
    ended.(handles := CollectAt(ended.handles, receiveIDs, s.dispatch[t].env), dispatch := s.dispatch - {t})
  }

  /** Serving the asks, then the receives, of a matched event. */
  lemma ServeReach(re: Regexp, s: State, t: EventType, faults: nat -> Fault) returns (s': State)
    requires t in INBOUND_TYPES && t in s.dispatch && s.dispatch[t].matched
    requires var d := s.dispatch[t];
             && Endable(s, d.asks, OnMatch(d.env), Resolved) && Distinct(d.receives)
             && forall id :: id in d.receives ==> id in s.handles
    ensures Reach(re, s, s')
    ensures var d := s.dispatch[t];
            var ended := AllEnded(s, d.asks, OnMatch(d.env), Resolved, faults);
            s' == ended.(handles := CollectAt(ended.handles, d.receives, d.env),
                         dispatch := s.dispatch[t := d.(asks := [], receives := [])])
  {
    var d := s.dispatch[t];
    assert d.asks[..|d.asks|] == d.asks && d.asks[|d.asks|..] == [];
    assert d.receives[..|d.receives|] == d.receives && d.receives[|d.receives|..] == [];
    EndAllKeys(s.handles, d.asks, OnMatch(d.env), faults);
    AsksReach(re, s, t, faults, |d.asks|);
    hide Reach, Endable, Distinct, EndAll, SetRows, Collect;
    var s1 := Serving(s, t, faults, |d.asks|);
    CollectReach(re, s1, t, |d.receives|);
    s' := CollectingState(s1, t, |d.receives|);
    ReachTrans(re, s, s1, s');
  }

  lemma RouteReach(re: Regexp, s: State, t: EventType, askIDs: seq<string>, receiveIDs: seq<string>,
                   faults: nat -> Fault)
    requires t in INBOUND_TYPES && t in s.dispatch && !s.dispatch[t].matched
    requires ExactlyTheMatches(re, s, Ask, s.dispatch[t].env, askIDs)
    requires ExactlyTheMatches(re, s, Kind.Receive, s.dispatch[t].env, receiveIDs)
    requires Endable(s, askIDs, OnMatch(s.dispatch[t].env), Resolved)
    ensures Reach(re, s, RoutedState(s, t, askIDs, receiveIDs, faults))
  {
    var env := s.dispatch[t].env;
    var s1 := MatchedState(s, t, askIDs, receiveIDs);
    assert Endable(s1, askIDs, OnMatch(env), Resolved) && Distinct(receiveIDs);
    assert forall id :: id in receiveIDs ==> id in s.handles;
    hide Reach, ExactlyTheMatches, Endable, Distinct, EndAll, SetRows, CollectAt;
    ReachStep(re, s, OnDispatch(t, Match(askIDs, receiveIDs)));
    var s2 := ServeReach(re, s1, t, faults);
    ReachTrans(re, s, s1, s2);
    ReturnReach(re, s, s2, t);
    assert s2.dispatch - {t} == s.dispatch - {t};
  }

  lemma ReturnReach(re: Regexp, from: State, s: State, t: EventType)
    requires t in INBOUND_TYPES && t in s.dispatch && s.dispatch[t].matched
    requires s.dispatch[t].asks == [] && s.dispatch[t].receives == [] && Reach(re, from, s)
    ensures Reach(re, from, s.(dispatch := s.dispatch - {t}))
  {
    hide Reach, ExactlyTheMatches, HandleEnabled, ApplyHandle;
    ReachStep(re, s, OnDispatch(t, Return));
    ReachTrans(re, from, s, s.(dispatch := s.dispatch - {t}));
  }

  lemma {:induction false} EndAllKeys(handles: map<string, Handle>, ids: seq<string>, ending: Ending,
                                      faults: nat -> Fault)
    ensures EndAll(handles, ids, ending, faults).Keys == handles.Keys
    decreases |ids|
  {
    hide Ended;
    if ids != [] {
      EndAllKeys(handles, ids[..|ids| - 1], ending, faults);
    }
  }

  /** What HandleEvent does to the maps and rows is a path of the protocol through the event
      that the dispatch goroutine has in hand. */
  lemma HandleEventFollowsProtocol(re: Regexp, s: State, t: EventType, v: View, v': View, askIDs: seq<string>,
                                   receiveIDs: seq<string>, faults: nat -> Fault)
    returns (s': State)
    requires t in INBOUND_TYPES && t in s.dispatch && !s.dispatch[t].matched
    requires Shows(s, v) && Routed(re, v, v', s.dispatch[t].env, askIDs, receiveIDs, faults)
    ensures Reach(re, s, s') && Shows(s', v')
    ensures s'.dispatch == s.dispatch - {t} && s'.inbox == s.inbox && s'.sweep == s.sweep && s'.clock == s.clock
    ensures forall k :: 0 <= k < |askIDs| ==>
              && askIDs[k] in s.handles && askIDs[k] in s'.handles
              && s'.handles[askIDs[k]] == Ended(s.handles[askIDs[k]], Matched(s.dispatch[t].env), faults(k))
    ensures forall id :: id in receiveIDs ==>
              id in s.handles && id in s'.handles && s'.handles[id] == Collect(s.handles[id], s.dispatch[t].env)
  {
    var env := s.dispatch[t].env;
    s' := RoutedState(s, t, askIDs, receiveIDs, faults);
    MatchesAreExact(re, s, v, v', env, askIDs, receiveIDs, faults);
    assert Endable(s, askIDs, OnMatch(env), Resolved);
    assert Reach(re, s, s') by {
      hide Shows, Routed, ExactlyTheMatches, Endable;
      RouteReach(re, s, t, askIDs, receiveIDs, faults);
    }
    hide Endable, ExactlyTheMatches;
    RoutedShows(re, s, t, v, v', askIDs, receiveIDs, faults);
    RoutedHandle(s, t, askIDs, receiveIDs, faults);
    hide AllEnded, Ended, Collect, CollectAt;
  }

  /** What becomes of each handle. */
  lemma RoutedHandle(s: State, t: EventType, askIDs: seq<string>, receiveIDs: seq<string>, faults: nat -> Fault)
    requires t in s.dispatch && Distinct(askIDs) && forall id :: id in askIDs ==> id in s.handles && id !in receiveIDs
    ensures var s', env := RoutedState(s, t, askIDs, receiveIDs, faults), s.dispatch[t].env;
            && s'.handles.Keys == s.handles.Keys
            && (forall k :: 0 <= k < |askIDs| ==>
                  s'.handles[askIDs[k]] == Ended(s.handles[askIDs[k]], Matched(env), faults(k)))
            && (forall id :: id in s.handles && id !in askIDs ==>
                  s'.handles[id] == if id in receiveIDs then Collect(s.handles[id], env) else s.handles[id])
  {
    var env := s.dispatch[t].env;
    hide EndAll, Ended, SetRows, Collect, Distinct;
    EndAllKeys(s.handles, askIDs, OnMatch(env), faults);
    var s' := RoutedState(s, t, askIDs, receiveIDs, faults);
    forall k | 0 <= k < |askIDs|
      ensures s'.handles[askIDs[k]] == Ended(s.handles[askIDs[k]], Matched(env), faults(k))
    {
      assert askIDs[k] in askIDs;
      EndAllAt(s.handles, askIDs, OnMatch(env), faults, k);
    }
    forall id | id in s.handles && id !in askIDs
      ensures s'.handles[id] == if id in receiveIDs then Collect(s.handles[id], env) else s.handles[id]
    {
      EndAllElsewhere(s.handles, askIDs, OnMatch(env), faults, id);
    }
  }

  lemma CollectShows(h: Handle, r: ReceiveView, env: Envelope)
    requires ShowsReceive(h, r)
    ensures ShowsReceive(Collect(h, env), Collecting(r, env))
  {
  }

  /** What becomes of the maps. */
  lemma RoutedMaps(re: Regexp, v: View, v': View, env: Envelope, askIDs: seq<string>, receiveIDs: seq<string>,
                   faults: nat -> Fault)
    requires Routed(re, v, v', env, askIDs, receiveIDs, faults)
    ensures v'.rows == SetRows(v.rows, askIDs, Resolved, faults)
    ensures v'.asks.Keys == v.asks.Keys - Members(askIDs) && v'.receives.Keys == v.receives.Keys
    ensures forall id :: id in v'.asks ==> id !in askIDs && v'.asks[id] == v.asks[id]
    ensures forall id :: id in v'.receives ==>
              v'.receives[id] == if id in receiveIDs then Collecting(v.receives[id], env) else v.receives[id]
    ensures forall id :: id in receiveIDs ==> id in v.receives
    ensures forall id :: id in askIDs ==> id in v.asks
  {
    hide SetRows, Collecting, AskMatches, ReceiveMatches, Distinct;
  }

  lemma RoutedRest(s: State, t: EventType, askIDs: seq<string>, receiveIDs: seq<string>, faults: nat -> Fault)
    requires t in s.dispatch
    ensures var s' := RoutedState(s, t, askIDs, receiveIDs, faults);
            && s'.listed == s.listed - Members(askIDs) && s'.rows == SetRows(s.rows, askIDs, Resolved, faults)
  {
    hide SetRows, EndAll;
  }

  lemma ListedAfter(asks: set<string>, receives: set<string>, ids: seq<string>)
    requires forall id :: id in ids ==> id in asks
    requires asks !! receives
    ensures asks + receives - Members(ids) == asks - Members(ids) + receives
    ensures (asks - Members(ids)) !! receives
  {
  }

  lemma RoutedShows(re: Regexp, s: State, t: EventType, v: View, v': View, askIDs: seq<string>,
                    receiveIDs: seq<string>, faults: nat -> Fault)
    requires t in s.dispatch && Shows(s, v) && Routed(re, v, v', s.dispatch[t].env, askIDs, receiveIDs, faults)
    requires Distinct(askIDs) && forall id :: id in askIDs ==> id in s.handles && id !in receiveIDs
    ensures Shows(RoutedState(s, t, askIDs, receiveIDs, faults), v')
  {
    hide Routed, RoutedState, Collecting, ShowsAsk, ShowsReceive, SetRows, Collect, Ended, Distinct, Members;
    var env := s.dispatch[t].env;
    var s' := RoutedState(s, t, askIDs, receiveIDs, faults);
    RoutedHandle(s, t, askIDs, receiveIDs, faults);
    RoutedMaps(re, v, v', env, askIDs, receiveIDs, faults);
    RoutedRest(s, t, askIDs, receiveIDs, faults);
    ListedAfter(v.asks.Keys, v.receives.Keys, askIDs);
    forall id | id in v'.receives ensures id in s'.handles && ShowsReceive(s'.handles[id], v'.receives[id]) {
      CollectShows(s.handles[id], v.receives[id], env);
    }
    forall id | id in v'.asks ensures id in s'.handles && ShowsAsk(s'.handles[id], v'.asks[id]) {
    }
  }

  // # One sweep

  function OnDeadline(): Ending {
    (h: Handle) => OnTimeout(h)
  }

  /** The sweep completes the handle that is next on its list. */
  lemma SweepOne(re: Regexp, s: State, fault: Fault)
    requires s.sweep.Sweeping? && s.sweep.expired != []
    requires s.sweep.expired[0] in s.handles && IsOpen(s.handles[s.sweep.expired[0]])
    ensures var id := s.sweep.expired[0];
            var s' := EndedState(s, id, OnTimeout(s.handles[id]), fault);
            Reach(re, s, s'.(sweep := s.sweep.(expired := s.sweep.expired[1..])))
  {
    hide Reach, Ended, SetRowState, ApplyDispatch, DispatchEnabled, HandleEnabled, ApplyHandle;
    var id := s.sweep.expired[0];
    var o := OnTimeout(s.handles[id]);
    var won := Apply(re, s, SweepWins);
    ReachStep(re, s, SweepWins);
    WonReach(re, s, id, o, fault);
    var ended := EndedState(s, id, o, fault);
    ReachTrans(re, s, won, ended);
    EndedIsFinished(s.handles[id], o, fault);
    ReachStep(re, ended, SweepReturns);
    ReachTrans(re, s, ended, Apply(re, ended, SweepReturns));
  }

  /** After the first i expired handles. */
  function SweepingState(s: State, faults: nat -> Fault, i: nat): State
    requires s.sweep.Sweeping? && i <= |s.sweep.expired|
  {
    var ids := s.sweep.expired;
    AllEnded(s, ids[..i], OnDeadline(), Expired, faults).(sweep := s.sweep.(expired := ids[i..]))
  }

  lemma SweepingNext(s: State, faults: nat -> Fault, i: nat)
    requires s.sweep.Sweeping? && i < |s.sweep.expired|
    requires Endable(s, s.sweep.expired, OnDeadline(), Expired)
    ensures var before, id := SweepingState(s, faults, i), s.sweep.expired[i];
            var rest := before.sweep;
            && rest == s.sweep.(expired := s.sweep.expired[i..]) && rest.expired[0] == id
            && id in s.handles && IsOpen(s.handles[id])
            && id in before.handles && before.handles[id] == s.handles[id]
            && EndedState(before, id, OnTimeout(s.handles[id]), faults(i)).(
                 sweep := rest.(expired := rest.expired[1..])) == SweepingState(s, faults, i + 1)
  {
    OneMoreEnded(s, s.sweep.expired, OnDeadline(), Expired, faults, i);
    assert s.sweep.expired[i..][1..] == s.sweep.expired[i + 1..];
    assert EndsIn(s.handles[s.sweep.expired[i]], OnDeadline(), Expired);
    hide EndAll, SetRows, Ended, SetRowState;
  }

  lemma {:induction false} SweepingReach(re: Regexp, s: State, faults: nat -> Fault, i: nat)
    requires s.sweep.Sweeping? && i <= |s.sweep.expired|
    requires Endable(s, s.sweep.expired, OnDeadline(), Expired)
    ensures Reach(re, s, SweepingState(s, faults, i))
  {
    if i == 0 {
      NoneEnded(s, s.sweep.expired, OnDeadline(), Expired, faults);
      assert s.sweep.expired[0..] == s.sweep.expired;
      hide AllEnded, Endable, Reach;
      assert SweepingState(s, faults, 0) == s;
      ReachHere(re, s);
    } else {
      SweepingReach(re, s, faults, i - 1);
      SweepingNext(s, faults, i - 1);
      hide SweepingState, Reach, EndedState, Endable;
      SweepOne(re, SweepingState(s, faults, i - 1), faults(i - 1));
      ReachTrans(re, s, SweepingState(s, faults, i - 1), SweepingState(s, faults, i));
    }
  }

  /** The state after a sweep. */
  function SweptState(s: State, now: int, expired: seq<string>, faults: nat -> Fault, prune: Fault): State {
    var ended := AllEnded(s, expired, OnDeadline(), Expired, faults);
    ended.(rows := if prune == BeforeWrite then ended.rows else Pruned(ended.rows, UnixMilli(now)))
  }

  lemma SweepReach(re: Regexp, s: State, now: int, expired: seq<string>, faults: nat -> Fault, prune: Fault)
    requires s.sweep.NoSweep? && now <= s.clock && Endable(s, expired, OnDeadline(), Expired)
    requires forall id :: id in expired <==> id in s.listed && id in s.handles && now > s.handles[id].deadline
    ensures Reach(re, s, SweptState(s, now, expired, faults, prune))
  {
    var s1 := s.(sweep := Sweeping(now, s.listed, expired));
    assert Endable(s1, expired, OnDeadline(), Expired);
    assert expired[..|expired|] == expired && expired[|expired|..] == [];
    hide Reach, Endable, EndAll, SetRows, ApplyDispatch, DispatchEnabled, HandleEnabled, ApplyHandle, Pruned;
    ReachStep(re, s, SweepStart(now, expired));
    SweepingReach(re, s1, faults, |expired|);
    var s2 := SweepingState(s1, faults, |expired|);
    ReachTrans(re, s, s1, s2);
    ReachStep(re, s2, Prune(prune));
    ReachTrans(re, s, s2, SweptState(s, now, expired, faults, prune));
  }

  function Joined(first: nat -> Fault, second: nat -> Fault, n: nat): nat -> Fault {
    (i: nat) => if i < n then first(i) else second(i - n)
  }

  lemma {:induction false} SetRowsJoined(rows: map<string, CorrelationRow>, a: seq<string>, b: seq<string>,
                                         state: RowState, first: nat -> Fault, second: nat -> Fault)
    ensures SetRows(rows, a + b, state, Joined(first, second, |a|))
         == SetRows(SetRows(rows, a, state, first), b, state, second)
    decreases |b|
  {
    hide SetRowState;
    if b == [] {
      assert a + b == a;
      SetRowsAgree(rows, a, state, first, Joined(first, second, |a|));
    } else {
      assert (a + b)[..|a + b| - 1] == a + b[..|b| - 1] && (a + b)[|a + b| - 1] == b[|b| - 1];
      SetRowsJoined(rows, a, b[..|b| - 1], state, first, second);
    }
  }

  lemma {:induction false} SetRowsAgree(rows: map<string, CorrelationRow>, ids: seq<string>, state: RowState,
                                        faults: nat -> Fault, others: nat -> Fault)
    requires forall i: nat :: i < |ids| ==> faults(i) == others(i)
    ensures SetRows(rows, ids, state, faults) == SetRows(rows, ids, state, others)
    decreases |ids|
  {
    hide SetRowState;
    if ids != [] {
      SetRowsAgree(rows, ids[..|ids| - 1], state, faults, others);
    }
  }

  /** What SweepExpired does to the maps and rows is a path of the protocol through a whole
      sweep. */
  lemma SweepFollowsProtocol(re: Regexp, s: State, v: View, v': View, now: int, askIDs: seq<string>,
                             receiveIDs: seq<string>, askFaults: nat -> Fault, receiveFaults: nat -> Fault,
                             prune: Fault)
    returns (s': State)
    requires s.sweep.NoSweep? && now <= s.clock && Shows(s, v)
    requires Swept(v, v', now, askIDs, receiveIDs, askFaults, receiveFaults, prune)
    ensures Reach(re, s, s') && Shows(s', v')
    ensures s'.dispatch == s.dispatch && s'.inbox == s.inbox && s'.sweep == s.sweep && s'.clock == s.clock
    ensures var ids, faults := askIDs + receiveIDs, Joined(askFaults, receiveFaults, |askIDs|);
            forall k :: 0 <= k < |ids| ==>
              && ids[k] in s.handles && ids[k] in s'.handles
              && s'.handles[ids[k]] == Ended(s.handles[ids[k]], OnTimeout(s.handles[ids[k]]), faults(k))
  {
    var ids, faults := askIDs + receiveIDs, Joined(askFaults, receiveFaults, |askIDs|);
    SweptIDsOf(s, v, v', now, askIDs, receiveIDs, askFaults, receiveFaults, prune);
    hide Shows, Swept, Reach, Joined;
    SweepReach(re, s, now, ids, faults, prune);
    s' := SweptState(s, now, ids, faults, prune);
    SweptShows(s, v, v', now, askIDs, receiveIDs, askFaults, receiveFaults, prune);
    forall k | 0 <= k < |ids|
      ensures ids[k] in s.handles && ids[k] in s'.handles
              && s'.handles[ids[k]] == Ended(s.handles[ids[k]], OnTimeout(s.handles[ids[k]]), faults(k))
    {
      assert ids[k] in ids;
      EndAllAt(s.handles, ids, OnDeadline(), faults, k);
    }
  }

  /** The handles a sweep ends are exactly the listed late ones. */
  lemma SweptIDsOf(s: State, v: View, v': View, now: int, askIDs: seq<string>, receiveIDs: seq<string>,
                   askFaults: nat -> Fault, receiveFaults: nat -> Fault, prune: Fault)
    requires Shows(s, v) && Swept(v, v', now, askIDs, receiveIDs, askFaults, receiveFaults, prune)
    ensures var ids := askIDs + receiveIDs;
            && Endable(s, ids, OnDeadline(), Expired)
            && forall id :: id in ids <==> id in s.listed && id in s.handles && now > s.handles[id].deadline
  {
    hide SweptRows;
    var ids := askIDs + receiveIDs;
    forall id ensures id in ids <==> id in s.listed && id in s.handles && now > s.handles[id].deadline {
    }
    forall i, j | 0 <= i < j < |ids| ensures ids[i] != ids[j] {
      if i < |askIDs| <= j {
        assert ids[i] in askIDs && ids[j] in receiveIDs;
      }
    }
    forall i | 0 <= i < |ids| ensures ids[i] in s.handles && EndsIn(s.handles[ids[i]], OnDeadline(), Expired) {
      assert ids[i] in ids;
    }
  }

  lemma SweptMaps(v: View, v': View, now: int, askIDs: seq<string>, receiveIDs: seq<string>,
                  askFaults: nat -> Fault, receiveFaults: nat -> Fault, prune: Fault)
    requires Swept(v, v', now, askIDs, receiveIDs, askFaults, receiveFaults, prune)
    requires v.asks.Keys !! v.receives.Keys
    ensures v'.rows == SweptRows(v.rows, askIDs, receiveIDs, now, askFaults, receiveFaults, prune)
    ensures v'.asks.Keys + v'.receives.Keys == v.asks.Keys + v.receives.Keys - Members(askIDs + receiveIDs)
    ensures v'.asks.Keys !! v'.receives.Keys
    ensures forall id :: id in v'.asks ==> id in v.asks && id !in askIDs + receiveIDs && v'.asks[id] == v.asks[id]
    ensures forall id :: id in v'.receives ==>
              id in v.receives && id !in askIDs + receiveIDs && v'.receives[id] == v.receives[id]
  {
    hide SweptRows, Distinct;
  }

  lemma SweptRest(s: State, now: int, askIDs: seq<string>, receiveIDs: seq<string>, askFaults: nat -> Fault,
                  receiveFaults: nat -> Fault, prune: Fault)
    ensures var ids, faults := askIDs + receiveIDs, Joined(askFaults, receiveFaults, |askIDs|);
            var s' := SweptState(s, now, ids, faults, prune);
            && s'.listed == s.listed - Members(ids)
            && s'.rows == SweptRows(s.rows, askIDs, receiveIDs, now, askFaults, receiveFaults, prune)
            && s'.handles == EndAll(s.handles, ids, OnDeadline(), faults)
  {
    SetRowsJoined(s.rows, askIDs, receiveIDs, Expired, askFaults, receiveFaults);
    hide SetRows, EndAll, Pruned, Joined;
  }

  lemma SweptShows(s: State, v: View, v': View, now: int, askIDs: seq<string>, receiveIDs: seq<string>,
                   askFaults: nat -> Fault, receiveFaults: nat -> Fault, prune: Fault)
    requires Shows(s, v) && Swept(v, v', now, askIDs, receiveIDs, askFaults, receiveFaults, prune)
    ensures var faults := Joined(askFaults, receiveFaults, |askIDs|);
            Shows(SweptState(s, now, askIDs + receiveIDs, faults, prune), v')
  {
    var ids, faults := askIDs + receiveIDs, Joined(askFaults, receiveFaults, |askIDs|);
    var s' := SweptState(s, now, ids, faults, prune);
    hide Swept, SweptState, SweptRows, ShowsAsk, ShowsReceive, Ended, Members, EndAll, Joined;
    SweptMaps(v, v', now, askIDs, receiveIDs, askFaults, receiveFaults, prune);
    SweptRest(s, now, askIDs, receiveIDs, askFaults, receiveFaults, prune);
    forall id | id in s.handles && id !in ids ensures id in s'.handles && s'.handles[id] == s.handles[id] {
      EndAllElsewhere(s.handles, ids, OnDeadline(), faults, id);
    }
    forall id | id in v'.asks ensures id in s'.handles && ShowsAsk(s'.handles[id], v'.asks[id]) {
    }
    forall id | id in v'.receives ensures id in s'.handles && ShowsReceive(s'.handles[id], v'.receives[id]) {
    }
  }
}
