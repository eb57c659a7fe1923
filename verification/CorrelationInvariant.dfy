/** The invariant of the correlation protocol, handle by handle. */
module CorrelationInvariant {
  import opened Wrappers
  import opened Events
  import opened Filter
  import opened Bus
  import opened QueueStore
  import opened Correlation

  function RowOf(rows: map<string, CorrelationRow>, id: string): Option<CorrelationRow> {
    if id in rows then Some(rows[id]) else None
  }

  predicate OutcomeFits(re: Regexp, id: string, h: Handle, o: Outcome) {
    match o
    case Matched(env) => h.kind.Ask? && Accepts(re, id, h, env)
    case TimedOut => h.kind.Ask?
    case Window(final) => h.kind.Receive? && final != Pending && (final == Resolved ==> h.launched > 0)
  }

  /** What the result channel carries once the outcome has been emitted. */
  predicate Emitted(h: Handle, o: Outcome) {
    match o
    case Matched(env) => h.result.sent == [[env]] && h.result.closes == 0
    case TimedOut => h.result.sent == [] && h.result.closes == 1
    case Window(final) =>
      h.result.closes == 0 && |h.result.sent| == 1 && WindowOf(h, final, h.result.sent[0])
  }

  /** The events of a closed window: a prefix of what was collected, of full length when the
      limit closed it. */
  predicate WindowOf(h: Handle, final: RowState, events: seq<Envelope>) {
    events <= h.collected && (final == Resolved ==> |events| == h.limit)
  }

  predicate NothingEmitted(h: Handle) {
    h.result.sent == [] && h.result.closes == 0
  }

  /** Progress of the once body against the channels, the maps and the row. */
  predicate OnceOk(re: Regexp, id: string, h: Handle, listed: bool, row: Option<CorrelationRow>) {
    match h.once
    case Fresh =>
      NothingEmitted(h) && h.doneCloses == 0 && listed == h.published && !h.timer.Gone?
      && (row.Some? ==> row.value.state == Pending)
    case Running(o, stage, events) =>
      && h.published && OutcomeFits(re, id, h, o)
      && (h.kind.Ask? ==> stage != Snapshot)
      && (row.Some? ==> row.value.state == Pending)
      && (match stage
          case Snapshot => NothingEmitted(h) && h.doneCloses == 0 && listed
          case Emit => NothingEmitted(h) && h.doneCloses == 0 && listed
                       && (o.Window? ==> WindowOf(h, o.final, events))
          case CloseDone => Emitted(h, o) && h.doneCloses == 0 && listed
          case Remove => Emitted(h, o) && h.doneCloses == 1 && listed
          case Update => Emitted(h, o) && h.doneCloses == 1 && !listed)
    case Finished(o) =>
      && h.published && OutcomeFits(re, id, h, o)
      && Emitted(h, o) && h.doneCloses == 1 && !listed
      && (row.Some? ==> row.value.state == FinalState(o) || h.updateFailed)
  }

  predicate HandleOk(re: Regexp, id: string, h: Handle, listed: bool, row: Option<CorrelationRow>) {
    && OnceOk(re, id, h, listed, row)
    && h.result.taken <= |h.result.sent|
    && (row.Some? ==> row.value.timeoutAt == UnixMilli(h.deadline))
    // a handle not yet in the map is known to nobody
    && (!h.published ==> h.once.Fresh? && h.timer.NotStarted? && h.collected == [] && h.launched == 0)
    // the timer ends only once the handle is done
    && (h.timer.Gone? ==> h.doneCloses == 1)
    // the limit
    && (h.kind.Ask? ==> h.collected == [] && h.launched == 0)
    && (h.limit > 0 ==> |h.collected| <= h.limit && h.launched == if |h.collected| == h.limit then 1 else 0)
    && (h.limit <= 0 ==> h.launched == 0)
    && h.resolvers <= h.launched
    && (forall i :: 0 <= i < |h.collected| ==> Accepts(re, id, h, h.collected[i]))
  }

  ghost predicate HandlesOk(re: Regexp, s: State) {
    && s.listed <= s.handles.Keys
    && forall id :: id in s.handles ==> HandleOk(re, id, s.handles[id], id in s.listed, RowOf(s.rows, id))
  }

  /** What a dispatch goroutine still has to serve are matching handles of the right kind. */
  ghost predicate DispatchOk(re: Regexp, s: State, t: EventType) {
    t in s.dispatch ==>
      var d := s.dispatch[t];
      && (forall id :: id in d.asks ==> Serves(re, s, id, Ask, d.env))
      && (forall id :: id in d.receives ==> Serves(re, s, id, Kind.Receive, d.env))
  }

  predicate Serves(re: Regexp, s: State, id: string, kind: Kind, env: Envelope) {
    && id in s.handles && s.handles[id].published && s.handles[id].kind == kind
    && Accepts(re, id, s.handles[id], env)
  }

  /** Every handle present at the sweep's snapshot and past its deadline then is still to
      be resolved by the sweep, or finished. */
  ghost predicate SweepOk(s: State) {
    s.sweep.Sweeping? ==>
      && (forall id :: id in s.sweep.expired ==> id in s.handles && s.handles[id].published)
      && (forall id :: id in s.sweep.present ==> SweptOrFinished(s, id))
  }

  predicate SweptOrFinished(s: State, id: string)
    requires s.sweep.Sweeping?
  {
    && id in s.handles
    && (s.sweep.now > s.handles[id].deadline ==> id in s.sweep.expired || s.handles[id].once.Finished?)
  }

  ghost predicate Inv(re: Regexp, s: State) {
    HandlesOk(re, s) && (forall t :: DispatchOk(re, s, t)) && SweepOk(s)
  }

  /** The handle's identity does not change, and its progress only goes forward. */
  predicate Later(h: Handle, h': Handle) {
    && h'.kind == h.kind && h'.accountID == h.accountID && h'.filter == h.filter
    && h'.deadline == h.deadline && h'.limit == h.limit
    && (h.published ==> h'.published && h'.origin == h.origin)
    && (h.once.Finished? ==> h'.once == h.once)
    && (!h.once.Fresh? ==> !h'.once.Fresh? && h'.once.outcome == h.once.outcome)
    && h.collected <= h'.collected
    && h.launched <= h'.launched
    && h.result.sent <= h'.result.sent && h.result.closes <= h'.result.closes
  }

  /** Acceptance depends only on a handle's identity. */
  lemma AcceptsSame(re: Regexp, id: string, h: Handle, h': Handle)
    requires h'.kind == h.kind && h'.accountID == h.accountID && h'.filter == h.filter
    ensures forall env :: Accepts(re, id, h', env) <==> Accepts(re, id, h, env)
  {
  }

  /** A step that leaves the once state, channels and collection of a handle alone. */
  lemma QuietStep(re: Regexp, id: string, h: Handle, h': Handle, listed: bool, row: Option<CorrelationRow>)
    requires HandleOk(re, id, h, listed, row)
    requires h' == h.(timer := h'.timer, resolvers := h'.resolvers, result := h'.result)
    requires h'.result == h.result.(taken := h'.result.taken) && h'.result.taken <= |h.result.sent|
    requires h'.resolvers <= h.resolvers
    requires h'.timer.NotStarted? || h.published
    requires h'.timer.Gone? ==> h.doneCloses == 1
    ensures HandleOk(re, id, h', listed, row) && Later(h, h')
  {
    AcceptsSame(re, id, h, h');
    hide Accepts;
  }

  lemma WinStep(re: Regexp, id: string, h: Handle, o: Outcome, listed: bool, row: Option<CorrelationRow>)
    requires HandleOk(re, id, h, listed, row) && h.once.Fresh? && h.published && OutcomeFits(re, id, h, o)
    ensures HandleOk(re, id, Win(h, o), listed, row) && Later(h, Win(h, o))
  {
    AcceptsSame(re, id, h, Win(h, o));
    hide Accepts;
  }

  lemma AdvanceStep(re: Regexp, id: string, h: Handle, fault: Fault, listed: bool, row: Option<CorrelationRow>)
    requires HandleOk(re, id, h, listed, row) && h.once.Running?
    ensures var h' := AdvanceHandle(h, fault);
            var listed' := listed && h.once.stage != Remove;
            var row' := if h.once.stage == Update && fault != BeforeWrite && row.Some?
                        then Some(row.value.(state := FinalState(h.once.outcome))) else row;
            HandleOk(re, id, h', listed', row') && Later(h, h')
  {
    AcceptsSame(re, id, h, AdvanceHandle(h, fault));
    hide Accepts;
  }

  lemma CollectStep(re: Regexp, id: string, h: Handle, env: Envelope, listed: bool, row: Option<CorrelationRow>)
    requires HandleOk(re, id, h, listed, row) && h.kind.Receive? && h.published && Accepts(re, id, h, env)
    ensures HandleOk(re, id, Collect(h, env), listed, row) && Later(h, Collect(h, env))
  {
    AcceptsSame(re, id, h, Collect(h, env));
    hide Accepts;
  }

  lemma ListStep(re: Regexp, id: string, h: Handle, origin: map<EventType, Channel>, listed: bool,
                 row: Option<CorrelationRow>)
    requires HandleOk(re, id, h, listed, row) && !h.published
    ensures var h' := h.(published := true, origin := origin); HandleOk(re, id, h', true, row) && Later(h, h')
  {
    AcceptsSame(re, id, h, h.(published := true, origin := origin));
    hide Accepts;
  }

  lemma QuietAction(s: State, id: string, act: HandleAction)
    requires HandleEnabled(s, id, act)
    requires !act.List? && !act.TimeoutWins? && !act.ResolverWins? && !act.Advance?
    ensures var h, h' := s.handles[id], ApplyHandle(s, id, act).handles[id];
            && h' == h.(timer := h'.timer, resolvers := h'.resolvers, result := h'.result)
            && h'.result == h.result.(taken := h'.result.taken)
            && (h.result.taken <= |h.result.sent| ==> h'.result.taken <= |h.result.sent|)
            && h'.resolvers <= h.resolvers
            && (h'.timer.NotStarted? ==> h.timer.NotStarted?)
            && (!h'.timer.NotStarted? && h.timer.NotStarted? ==> h.published)
            && (h'.timer.Gone? && !h.timer.Gone? ==> h.doneCloses > 0 || h.once.Finished?)
    ensures ApplyHandle(s, id, act).listed == s.listed && ApplyHandle(s, id, act).rows == s.rows
  {
  }

  lemma TimeoutWinStep(re: Regexp, id: string, h: Handle, listed: bool, row: Option<CorrelationRow>)
    requires HandleOk(re, id, h, listed, row) && h.timer.Firing? && h.once.Fresh?
    ensures HandleOk(re, id, Win(h, OnTimeout(h)), listed, row) && Later(h, Win(h, OnTimeout(h)))
  {
    TimeoutFits(re, id, h, listed, row);
    WinStep(re, id, h, OnTimeout(h), listed, row);
  }

  lemma ResolverWinStep(re: Regexp, id: string, h: Handle, listed: bool, row: Option<CorrelationRow>)
    requires HandleOk(re, id, h, listed, row) && h.resolvers > 0 && h.once.Fresh?
    ensures HandleOk(re, id, Win(h, Window(Resolved)), listed, row) && Later(h, Win(h, Window(Resolved)))
  {
    TimeoutFits(re, id, h, listed, row);
    WinStep(re, id, h, Window(Resolved), listed, row);
  }

  lemma HandleStep(re: Regexp, s: State, id: string, act: HandleAction)
    requires HandlesOk(re, s) && HandleEnabled(s, id, act)
    ensures var s' := ApplyHandle(s, id, act);
            && HandleOk(re, id, s'.handles[id], id in s'.listed, RowOf(s'.rows, id))
            && Later(s.handles[id], s'.handles[id])
  {
    var h, listed, row := s.handles[id], id in s.listed, RowOf(s.rows, id);
    assert HandleOk(re, id, h, listed, row);
    hide HandlesOk, HandleOk, Later, Accepts, Win, AdvanceHandle, AllUnmatched;
    var s' := ApplyHandle(s, id, act);
    match act
    case List =>
      ListStep(re, id, h, AllUnmatched(s), listed, row);
    case TimeoutWins =>
      TimeoutWinStep(re, id, h, listed, row);
    case ResolverWins =>
      ResolverWinStep(re, id, h, listed, row);
    case Advance(fault) =>
      AdvanceStep(re, id, h, fault, listed, row);
    case _ =>
      QuietAction(s, id, act);
      hide ApplyHandle, HandleEnabled;
      QuietStep(re, id, h, s'.handles[id], listed, row);
  }

  /** The timer and the resolvers complete a handle in a way that fits its kind. */
  lemma TimeoutFits(re: Regexp, id: string, h: Handle, listed: bool, row: Option<CorrelationRow>)
    requires HandleOk(re, id, h, listed, row)
    ensures OutcomeFits(re, id, h, OnTimeout(h))
    ensures !h.timer.NotStarted? ==> h.published
    ensures h.resolvers > 0 ==> h.published && OutcomeFits(re, id, h, Window(Resolved))
  {
    hide Accepts;
  }

  lemma ServesLater(re: Regexp, s: State, s': State, id: string, kind: Kind, env: Envelope)
    requires Serves(re, s, id, kind, env)
    requires id in s'.handles && Later(s.handles[id], s'.handles[id])
    ensures Serves(re, s', id, kind, env)
  {
    AcceptsSame(re, id, s.handles[id], s'.handles[id]);
  }

  /** Changing one handle, its map entry and its row. */
  lemma OneHandleChanged(re: Regexp, s: State, s': State, id: string)
    requires Inv(re, s) && id in s.handles && id in s'.handles
    requires s'.handles == s.handles[id := s'.handles[id]]
    requires s'.listed - {id} == s.listed - {id}
    requires forall j :: j != id ==> RowOf(s'.rows, j) == RowOf(s.rows, j)
    requires s'.dispatch == s.dispatch && s'.sweep == s.sweep
    requires HandleOk(re, id, s'.handles[id], id in s'.listed, RowOf(s'.rows, id))
    requires Later(s.handles[id], s'.handles[id])
    ensures Inv(re, s')
  {
    hide HandleOk, RowOf, Accepts;
    forall j | j in s'.handles ensures HandleOk(re, j, s'.handles[j], j in s'.listed, RowOf(s'.rows, j)) {
      if j != id {
        assert HandleOk(re, j, s.handles[j], j in s.listed, RowOf(s.rows, j));
        assert j in s'.listed - {id} <==> j in s.listed - {id};
      }
    }
    forall j | j in s'.listed ensures j in s'.handles {
      assert j in s'.listed - {id} <==> j in s.listed - {id};
    }
    LaterReferences(re, s, s');
  }

  /** References held by dispatchers and the sweep survive any later handles. */
  lemma LaterReferences(re: Regexp, s: State, s': State)
    requires (forall t :: DispatchOk(re, s, t)) && SweepOk(s)
    requires s'.dispatch == s.dispatch && s'.sweep == s.sweep
    requires forall j :: j in s.handles ==>
               j in s'.handles && (s'.handles[j] == s.handles[j] || Later(s.handles[j], s'.handles[j]))
    ensures (forall t :: DispatchOk(re, s', t)) && SweepOk(s')
  {
    hide Accepts;
    forall t ensures DispatchOk(re, s', t) {
      assert DispatchOk(re, s, t);
      if t in s.dispatch {
        var d := s.dispatch[t];
        forall id | id in d.asks ensures Serves(re, s', id, Ask, d.env) {
          LaterSame(s.handles[id]);
          ServesLater(re, s, s', id, Ask, d.env);
        }
        forall id | id in d.receives ensures Serves(re, s', id, Kind.Receive, d.env) {
          LaterSame(s.handles[id]);
          ServesLater(re, s, s', id, Kind.Receive, d.env);
        }
      }
    }
    if s.sweep.Sweeping? {
      forall id | id in s.sweep.present ensures SweptOrFinished(s', id) {
        assert SweptOrFinished(s, id);
      }
    }
  }

  lemma LaterSame(h: Handle)
    ensures Later(h, h)
  {
  }

  lemma InvHandle(re: Regexp, s: State, id: string, act: HandleAction)
    requires Inv(re, s) && HandleEnabled(s, id, act)
    ensures Inv(re, ApplyHandle(s, id, act))
  {
    hide HandlesOk, DispatchOk, SweepOk, HandleOk, Later;
    HandleStep(re, s, id, act);
    HandleFrame(s, id, act);
    hide ApplyHandle, HandleEnabled;
    OneHandleChanged(re, s, ApplyHandle(s, id, act), id);
  }

  lemma HandleFrame(s: State, id: string, act: HandleAction)
    requires HandleEnabled(s, id, act)
    ensures var s' := ApplyHandle(s, id, act);
            && id in s'.handles && s'.handles == s.handles[id := s'.handles[id]]
            && s'.listed - {id} == s.listed - {id}
            && (forall j :: j != id ==> RowOf(s'.rows, j) == RowOf(s.rows, j))
            && s'.dispatch == s.dispatch && s'.sweep == s.sweep && s'.inbox == s.inbox && s'.clock == s.clock
  {
    hide AdvanceHandle, Win;
  }

  lemma InvDispatch(re: Regexp, s: State, t: EventType, call: DispatchAction)
    requires Inv(re, s) && DispatchEnabled(re, s, t, call)
    ensures Inv(re, ApplyDispatch(re, s, t, call))
  {
    var s' := ApplyDispatch(re, s, t, call);
    assert DispatchOk(re, s, t);
    match call
    case TakeEvent => TakeServes(re, s, t);
    case Match(asks, receives) => MatchServes(re, s, t, asks, receives);
    case AskWins =>
      var d := s.dispatch[t];
      var id := d.asks[0];
      assert Serves(re, s, id, Ask, d.env);
      assert HandleOk(re, id, s.handles[id], id in s.listed, RowOf(s.rows, id));
      WinStep(re, id, s.handles[id], Matched(d.env), id in s.listed, RowOf(s.rows, id));
      hide HandlesOk, DispatchOk, SweepOk, HandleOk, Later, Accepts;
      OneHandleChanged(re, s, s', id);
    case CollectNext =>
      var d := s.dispatch[t];
      var id := d.receives[0];
      assert Serves(re, s, id, Kind.Receive, d.env);
      assert HandleOk(re, id, s.handles[id], id in s.listed, RowOf(s.rows, id));
      CollectStep(re, id, s.handles[id], d.env, id in s.listed, RowOf(s.rows, id));
      var s1 := SetHandle(s, id, Collect(s.handles[id], d.env));
      assert Inv(re, s1) by {
        hide HandlesOk, DispatchOk, SweepOk, HandleOk, Later, Accepts;
        OneHandleChanged(re, s, s1, id);
      }
      ShrinkDispatch(re, s1, s', t);
    case AskReturns => ShrinkDispatch(re, s, s', t);
    case Return => ShrinkDispatch(re, s, s', t);
  }

  lemma TakeServes(re: Regexp, s: State, t: EventType)
    requires Inv(re, s) && DispatchEnabled(re, s, t, TakeEvent)
    ensures Inv(re, ApplyDispatch(re, s, t, TakeEvent))
  {
    var s' := ApplyDispatch(re, s, t, TakeEvent);
    hide Accepts, HandleOk, Take;
    forall u ensures DispatchOk(re, s', u) {
      assert DispatchOk(re, s, u);
    }
    assert s.sweep.Sweeping? ==> forall id :: id in s.sweep.present ==> SweptOrFinished(s, id);
  }

  lemma MatchServes(re: Regexp, s: State, t: EventType, asks: seq<string>, receives: seq<string>)
    requires Inv(re, s) && DispatchEnabled(re, s, t, Match(asks, receives))
    ensures Inv(re, ApplyDispatch(re, s, t, Match(asks, receives)))
  {
    var s' := ApplyDispatch(re, s, t, Match(asks, receives));
    hide Accepts, HandleOk;
    forall id | id in s.listed ensures id in s.handles && s.handles[id].published {
      ListedIsPublished(re, s, id);
    }
    forall u ensures DispatchOk(re, s', u) {
      assert DispatchOk(re, s, u);
    }
    assert s.sweep.Sweeping? ==> forall id :: id in s.sweep.present ==> SweptOrFinished(s, id);
  }

  lemma ListedIsPublished(re: Regexp, s: State, id: string)
    requires HandlesOk(re, s) && id in s.listed
    ensures id in s.handles && s.handles[id].published
  {
    assert HandleOk(re, id, s.handles[id], true, RowOf(s.rows, id));
  }

  /** A dispatcher dropping some of what it has to serve. */
  lemma ShrinkDispatch(re: Regexp, s: State, s': State, t: EventType)
    requires Inv(re, s) && s' == s.(dispatch := s'.dispatch)
    requires forall u :: u != t && u in s'.dispatch ==> u in s.dispatch && s'.dispatch[u] == s.dispatch[u]
    requires t in s'.dispatch ==>
               && t in s.dispatch && s'.dispatch[t].env == s.dispatch[t].env
               && (forall id :: id in s'.dispatch[t].asks ==> id in s.dispatch[t].asks)
               && (forall id :: id in s'.dispatch[t].receives ==> id in s.dispatch[t].receives)
    ensures Inv(re, s')
  {
    hide HandleOk, Accepts;
    forall u ensures DispatchOk(re, s', u) {
      assert DispatchOk(re, s, u);
    }
    assert HandlesOk(re, s') by {
      forall id | id in s'.handles ensures HandleOk(re, id, s'.handles[id], id in s'.listed, RowOf(s'.rows, id)) {
        assert HandleOk(re, id, s.handles[id], id in s.listed, RowOf(s.rows, id));
      }
    }
    assert s.sweep.Sweeping? ==> forall id :: id in s.sweep.present ==> SweptOrFinished(s, id);
  }

  lemma InvInsert(re: Regexp, s: State, step: Step)
    requires Inv(re, s) && Enabled(re, s, step) && step.Insert?
    ensures Inv(re, Apply(re, s, step))
  {
    var s' := Apply(re, s, step);
    var id := step.id;
    hide Accepts;
    if step.fault == NoFault {
      assert HandleOk(re, id, s'.handles[id], false, RowOf(s'.rows, id));
    }
    hide HandleOk;
    forall j | j in s'.handles ensures HandleOk(re, j, s'.handles[j], j in s'.listed, RowOf(s'.rows, j)) {
      assert j != id ==> HandleOk(re, j, s.handles[j], j in s.listed, RowOf(s.rows, j));
    }
    LaterReferences(re, s, s');
  }

  lemma InvSweep(re: Regexp, s: State, step: Step)
    requires Inv(re, s) && Enabled(re, s, step)
    requires step.SweepStart? || step.SweepWins? || step.SweepReturns?
    ensures Inv(re, Apply(re, s, step))
  {
    var s' := Apply(re, s, step);
    if step.SweepWins? {
      var id := s.sweep.expired[0];
      assert HandleOk(re, id, s.handles[id], id in s.listed, RowOf(s.rows, id));
      WinStep(re, id, s.handles[id], OnTimeout(s.handles[id]), id in s.listed, RowOf(s.rows, id));
      hide HandlesOk, DispatchOk, SweepOk, HandleOk, Later, Accepts;
      OneHandleChanged(re, s, s', id);
    } else {
      hide HandleOk, Accepts;
      SameElseInv(re, s, s');
      assert SweepOk(s') by {
        if step.SweepStart? {
          forall id | id in s.listed ensures id in s.handles && s.handles[id].published {
            ListedIsPublished(re, s, id);
          }
        } else {
          forall id | id in s.sweep.present ensures SweptOrFinished(s', id) {
            assert SweptOrFinished(s, id);
          }
        }
      }
    }
  }

  lemma SameElseInv(re: Regexp, s: State, s': State)
    requires Inv(re, s) && s'.handles == s.handles && s'.listed == s.listed && s'.dispatch == s.dispatch
    requires s'.rows == s.rows
    ensures HandlesOk(re, s') && (forall t :: DispatchOk(re, s', t))
    ensures s'.sweep == s.sweep ==> SweepOk(s')
  {
    hide HandleOk, Accepts;
    forall id | id in s'.handles ensures HandleOk(re, id, s'.handles[id], id in s'.listed, RowOf(s'.rows, id)) {
      assert HandleOk(re, id, s.handles[id], id in s.listed, RowOf(s.rows, id));
    }
    LaterReferences(re, s, s'.(sweep := s.sweep));
    forall t ensures DispatchOk(re, s', t) {
      assert DispatchOk(re, s'.(sweep := s.sweep), t);
    }
    assert s'.sweep == s.sweep ==> s'.(sweep := s.sweep) == s';
  }

  lemma PrunedRowOk(re: Regexp, id: string, h: Handle, listed: bool, row: Option<CorrelationRow>)
    requires HandleOk(re, id, h, listed, row)
    ensures HandleOk(re, id, h, listed, None)
  {
    hide Accepts;
  }

  lemma InvPrune(re: Regexp, s: State, fault: Fault)
    requires Inv(re, s) && Enabled(re, s, Prune(fault))
    ensures Inv(re, Apply(re, s, Prune(fault)))
  {
    var s' := Apply(re, s, Prune(fault));
    hide HandleOk, Accepts;
    forall id | id in s'.handles ensures HandleOk(re, id, s'.handles[id], id in s'.listed, RowOf(s'.rows, id)) {
      assert HandleOk(re, id, s.handles[id], id in s.listed, RowOf(s.rows, id));
      PrunedRowOk(re, id, s.handles[id], id in s.listed, RowOf(s.rows, id));
    }
    SameElseInv(re, s, s'.(rows := s.rows));
    forall t ensures DispatchOk(re, s', t) {
      assert DispatchOk(re, s'.(rows := s.rows), t);
    }
  }

  lemma InvStep(re: Regexp, s: State, step: Step)
    requires Inv(re, s) && Enabled(re, s, step)
    ensures Inv(re, Apply(re, s, step))
  {
    hide HandlesOk, DispatchOk, SweepOk, ApplyHandle, ApplyDispatch, HandleEnabled, DispatchEnabled;
    match step
    case OnHandle(id, act) => InvHandle(re, s, id, act);
    case OnDispatch(t, call) => InvDispatch(re, s, t, call);
    case Insert(_, _, _, _, _, _, _) => InvInsert(re, s, step);
    case Prune(fault) => InvPrune(re, s, fault);
    case Publish(_) => SameElseInv(re, s, Apply(re, s, step));
    case Tick(_) => SameElseInv(re, s, Apply(re, s, step));
    case _ => InvSweep(re, s, step);
  }

  lemma {:induction false} InvAlways(re: Regexp, steps: seq<Step>, states: seq<State>, i: nat)
    requires IsRun(re, steps, states) && i < |states|
    ensures Inv(re, states[i])
  {
    hide Apply, Enabled;
    if i > 0 {
      InvAlways(re, steps, states, i - 1);
      InvStep(re, states[i - 1], steps[i - 1]);
    }
  }
}
