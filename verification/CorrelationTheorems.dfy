/** What the correlation protocol guarantees over every run. */
module CorrelationTheorems {
  import opened Wrappers
  import opened Events
  import opened Filter
  import opened FilterSemantics
  import opened AskFilter
  import opened QueueStore
  import opened Correlation
  import opened CorrelationInvariant

  lemma HandleAlways(re: Regexp, steps: seq<Step>, states: seq<State>, i: nat, id: string)
    requires IsRun(re, steps, states) && i < |states| && id in states[i].handles
    ensures HandleOk(re, id, states[i].handles[id], id in states[i].listed, RowOf(states[i].rows, id))
  {
    hide Apply, Enabled, HandleOk;
    InvAlways(re, steps, states, i);
  }

  /** A handle is completed at most once: one send or one close on its result channel, one
      close of done. Until then its timer is still pending once started; afterwards it is
      out of the map and its row, unless pruned or its update failed, is final. */
  lemma ExactlyOnce(re: Regexp, steps: seq<Step>, states: seq<State>, i: nat, id: string)
    requires IsRun(re, steps, states) && i < |states| && id in states[i].handles
    ensures var s, h := states[i], states[i].handles[id];
            && |h.result.sent| + h.result.closes <= 1 && h.doneCloses <= 1
            && (!h.timer.NotStarted? && h.doneCloses == 0 ==> h.timer.Armed? || h.timer.Firing?)
            && (h.once.Finished? ==>
                  && |h.result.sent| + h.result.closes == 1 && h.doneCloses == 1
                  && id !in s.listed
                  && (id in s.rows ==> s.rows[id].state == FinalState(h.once.outcome) || h.updateFailed))
  {
    HandleAlways(re, steps, states, i, id);
    hide IsRun, Accepts;
  }

  /** The send never blocks and never meets a closed channel, and neither close is a second
      one: when the once body reaches them the channels are open and the buffer empty. */
  lemma NoBlockedSendNoDoubleClose(re: Regexp, steps: seq<Step>, states: seq<State>, i: nat, id: string, fault: Fault)
    requires IsRun(re, steps, states) && i < |steps| && steps[i] == OnHandle(id, Advance(fault))
    ensures id in states[i].handles && states[i].handles[id].once.Running?
    ensures var h := states[i].handles[id];
            && (h.once.stage == Emit ==> h.result.sent == [] && h.result.closes == 0)
            && (h.once.stage == CloseDone ==> h.doneCloses == 0)
  {
    assert Enabled(re, states[i], steps[i]);
    HandleAlways(re, steps, states, i, id);
    hide IsRun, Accepts;
  }

  /** The handle a step acts on, if any. */
  function Touched(s: State, step: Step): Option<string> {
    match step
    case OnHandle(id, _) => Some(id)
    case OnDispatch(t, call) =>
      if t !in s.dispatch then None
      else if call.AskWins? && s.dispatch[t].asks != [] then Some(s.dispatch[t].asks[0])
      else if call.CollectNext? && s.dispatch[t].receives != [] then Some(s.dispatch[t].receives[0])
      else None
    case SweepWins => if s.sweep.Sweeping? && s.sweep.expired != [] then Some(s.sweep.expired[0]) else None
    case _ => None
  }

  lemma UntouchedSame(re: Regexp, s: State, step: Step, id: string)
    requires Enabled(re, s, step) && Touched(s, step) != Some(id)
    ensures id in s.handles ==> id in Apply(re, s, step).handles && Apply(re, s, step).handles[id] == s.handles[id]
    ensures id !in s.handles && id in Apply(re, s, step).handles ==>
              Apply(re, s, step).handles[id].once.Fresh? && Apply(re, s, step).handles[id].result.sent == []
  {
    hide ApplyHandle, HandleEnabled, ExactlyTheMatches;
    match step
    case OnHandle(j, act) => HandleFrame(s, j, act);
    case _ =>
  }

  /** What happens to the handle a step acts on, other than its own goroutines' steps. */
  lemma TouchedEffect(re: Regexp, s: State, step: Step, id: string)
    requires Inv(re, s) && Enabled(re, s, step) && Touched(s, step) == Some(id) && !step.OnHandle?
    ensures id in s.handles && id in Apply(re, s, step).handles
    ensures var h, h' := s.handles[id], Apply(re, s, step).handles[id];
            && Later(h, h')
            && ((h.once.Fresh? &&
                h' == Win(h, if step.SweepWins? then OnTimeout(h) else Matched(s.dispatch[step.t].env)))
                || (step.OnDispatch? && h' == Collect(h, s.dispatch[step.t].env)))
  {
    hide Inv, Win, Collect, Later;
    TouchedChange(re, s, step, id);
    hide Apply, Enabled;
    var h := s.handles[id];
    if step.SweepWins? {
      WinIsLater(h, OnTimeout(h));
    } else {
      WinIsLater(h, Matched(s.dispatch[step.t].env));
      CollectIsLater(h, s.dispatch[step.t].env);
    }
  }

  lemma TouchedChange(re: Regexp, s: State, step: Step, id: string)
    requires Enabled(re, s, step) && Touched(s, step) == Some(id) && !step.OnHandle?
    ensures id in s.handles && id in Apply(re, s, step).handles
    ensures step.OnDispatch? ==> step.t in s.dispatch
    ensures var h, h' := s.handles[id], Apply(re, s, step).handles[id];
            || (h.once.Fresh? &&
                h' == Win(h, if step.SweepWins? then OnTimeout(h) else Matched(s.dispatch[step.t].env)))
            || (step.OnDispatch? && h' == Collect(h, s.dispatch[step.t].env))
  {
    hide ExactlyTheMatches, Win, Collect;
  }

  lemma WinIsLater(h: Handle, o: Outcome)
    ensures h.once.Fresh? ==> Later(h, Win(h, o))
  {
  }

  lemma CollectIsLater(h: Handle, env: Envelope)
    ensures Later(h, Collect(h, env))
  {
  }

  lemma LaterStep(re: Regexp, s: State, step: Step, id: string)
    requires Inv(re, s) && Enabled(re, s, step) && id in s.handles
    ensures id in Apply(re, s, step).handles && Later(s.handles[id], Apply(re, s, step).handles[id])
  {
    LaterSame(s.handles[id]);
    hide Later, HandleEnabled, ApplyHandle;
    if Touched(s, step) != Some(id) {
      UntouchedSame(re, s, step, id);
    } else if step.OnHandle? {
      HandleStep(re, s, id, step.act);
      HandleFrame(s, id, step.act);
    } else {
      TouchedEffect(re, s, step, id);
    }
  }

  lemma {:induction false} LaterAlways(re: Regexp, steps: seq<Step>, states: seq<State>, i: nat, j: nat, id: string)
    requires IsRun(re, steps, states) && i <= j < |states| && id in states[i].handles
    ensures id in states[j].handles && Later(states[i].handles[id], states[j].handles[id])
    decreases j
  {
    hide Apply, Enabled;
    if i == j {
      LaterSame(states[i].handles[id]);
    } else {
      LaterAlways(re, steps, states, i, j - 1, id);
      InvAlways(re, steps, states, j - 1);
      hide Inv;
      LaterStep(re, states[j - 1], steps[j - 1], id);
    }
  }

  /** Once delivered, a result never changes: no later delivery, timer, sweep or late
      append affects it. */
  lemma DeliveredForever(re: Regexp, steps: seq<Step>, states: seq<State>, i: nat, j: nat, id: string)
    requires IsRun(re, steps, states) && i <= j < |states| && id in states[i].handles
    requires var r := states[i].handles[id].result; |r.sent| + r.closes > 0
    ensures id in states[j].handles
    ensures states[j].handles[id].result.sent == states[i].handles[id].result.sent
    ensures states[j].handles[id].result.closes == states[i].handles[id].result.closes
    ensures !states[i].handles[id].once.Fresh? && !states[j].handles[id].once.Fresh?
            && states[i].handles[id].once.outcome == states[j].handles[id].once.outcome
  {
    ExactlyOnce(re, steps, states, i, id);
    LaterAlways(re, steps, states, i, j, id);
    ExactlyOnce(re, steps, states, j, id);
    HandleAlways(re, steps, states, i, id);
    hide IsRun, Accepts;
  }

  /** Under concurrent collectors the limit is never exceeded, at most one limit resolver is
      ever launched, what is delivered is an initial part of what was collected, of exactly
      the limit's length when the limit closed the window, and every event in it matches
      the filter and account. */
  lemma ReceiveLimit(re: Regexp, steps: seq<Step>, states: seq<State>, i: nat, id: string)
    requires IsRun(re, steps, states) && i < |states| && id in states[i].handles
    requires states[i].handles[id].kind == Kind.Receive
    ensures var h := states[i].handles[id];
            && (h.limit > 0 ==> |h.collected| <= h.limit)
            && h.launched <= 1
            && (forall k :: 0 <= k < |h.collected| ==> FilterMatches(re, h.filter, h.collected[k], h.accountID))
            && (h.result.sent != [] ==>
                  && h.result.sent[0] <= h.collected
                  && !h.once.Fresh? && h.once.outcome.Window?
                  && (h.once.outcome.final == Resolved ==> |h.result.sent[0]| == h.limit))
  {
    HandleAlways(re, steps, states, i, id);
    hide IsRun, FilterMatches;
    var h := states[i].handles[id];
    forall k | 0 <= k < |h.collected| ensures FilterMatches(re, h.filter, h.collected[k], h.accountID) {
      assert Accepts(re, id, h, h.collected[k]);
    }
  }

  /** The once body's snapshot at step k, as the result delivered later. */
  ghost predicate SnapshotAt(steps: seq<Step>, states: seq<State>, k: nat, id: string, events: seq<Envelope>) {
    && k < |steps| && k < |states|
    && steps[k].OnHandle? && steps[k].id == id && steps[k].act.Advance?
    && id in states[k].handles && states[k].handles[id].once.Running?
    && states[k].handles[id].once.stage == Snapshot
    && events == states[k].handles[id].collected
  }

  /** The events a receive's once body is carrying, or has sent. */
  predicate Carries(h: Handle, events: seq<Envelope>) {
    || (h.once.Running? && h.once.stage != Snapshot && h.once.events == events && h.result.sent == [])
    || h.result.sent == [events]
  }

  /** A step that makes a receive carry events is its snapshot; others pass them on. */
  lemma CarryStep(re: Regexp, s: State, step: Step, id: string, events: seq<Envelope>)
    requires Inv(re, s) && Enabled(re, s, step)
    requires var s' := Apply(re, s, step);
             id in s'.handles && s'.handles[id].kind == Kind.Receive && Carries(s'.handles[id], events)
    ensures id in s.handles && s.handles[id].kind == Kind.Receive
    ensures Carries(s.handles[id], events) || SnapshotAt([step], [s], 0, id, events)
  {
    hide Accepts, DispatchOk, SweepOk, Later;
    if Touched(s, step) != Some(id) {
      UntouchedSame(re, s, step, id);
    } else if step.OnHandle? {
      HandleAlwaysHere(re, s, id);
      HandleFrame(s, id, step.act);
      CarryHandle(re, s, id, step.act, events);
    } else {
      TouchedEffect(re, s, step, id);
      HandleAlwaysHere(re, s, id);
      hide Apply;
    }
  }

  lemma CarryHandle(re: Regexp, s: State, id: string, act: HandleAction, events: seq<Envelope>)
    requires HandleEnabled(s, id, act)
    requires HandleOk(re, id, s.handles[id], id in s.listed, RowOf(s.rows, id))
    requires ApplyHandle(s, id, act).handles[id].kind == Kind.Receive
        && Carries(ApplyHandle(s, id, act).handles[id], events)
    ensures s.handles[id].kind == Kind.Receive
    ensures Carries(s.handles[id], events) || SnapshotAt([OnHandle(id, act)], [s], 0, id, events)
  {
    hide Accepts, RowOf;
    var h := s.handles[id];
    var h' := ApplyHandle(s, id, act).handles[id];
    if act.Advance? {
      if h.once.stage == Snapshot {
        assert [OnHandle(id, act)][0] == OnHandle(id, act) && [s][0] == s;
      } else if h.once.stage == Emit {
        assert h'.result.sent == [h.once.events];
        assert h'.result.sent[0] == h.once.events;
      }
    }
  }

  /** A receive's result is exactly what was collected at the instant of its snapshot. */
  lemma {:induction false} ResultIsSnapshot(re: Regexp, steps: seq<Step>, states: seq<State>, i: nat, id: string,
                                            events: seq<Envelope>)
    returns (k: nat)
    requires IsRun(re, steps, states) && i < |states| && id in states[i].handles
    requires states[i].handles[id].kind == Kind.Receive && Carries(states[i].handles[id], events)
    ensures k < i && SnapshotAt(steps, states, k, id, events)
    decreases i
  {
    hide Apply, Enabled;
    assert i > 0;
    InvAlways(re, steps, states, i - 1);
    hide Inv;
    CarryStep(re, states[i - 1], steps[i - 1], id, events);
    if Carries(states[i - 1].handles[id], events) {
      k := ResultIsSnapshot(re, steps, states, i - 1, id, events);
    } else {
      k := i - 1;
    }
  }

  /** The sweep deletes no row of a handle that was in the maps at its snapshot, unless that
      handle has been completed and the store reported an error for its final update. */
  lemma SweepSparesLiveHandles(re: Regexp, steps: seq<Step>, states: seq<State>, i: nat, fault: Fault, id: string)
    requires IsRun(re, steps, states) && i < |steps| && steps[i] == Prune(fault)
    requires id in states[i].rows && id !in states[i + 1].rows
    ensures states[i].sweep.Sweeping?
    ensures id in states[i].sweep.present ==>
              && id in states[i].handles
              && states[i].handles[id].once.Finished? && states[i].handles[id].updateFailed
  {
    var s := states[i];
    InvAlways(re, steps, states, i);
    assert Enabled(re, s, steps[i]) && states[i + 1] == Apply(re, s, steps[i]);
    hide IsRun, Accepts, DispatchOk;
    if id in s.sweep.present {
      assert SweptOrFinished(s, id);
      HandleAlwaysHere(re, s, id);
      FloorSeparates(s.handles[id].deadline, s.sweep.now);
    }
  }

  /** The sweep's deletion leaves no pending row whose deadline lies before its clock reading,
      to the millisecond, except one without deadline; and it deletes no other. */
  lemma PruneLeavesNoStaleRow(re: Regexp, steps: seq<Step>, states: seq<State>, i: nat, fault: Fault, id: string)
    requires IsRun(re, steps, states) && i < |steps| && steps[i] == Prune(fault) && fault != BeforeWrite
    ensures states[i].sweep.Sweeping?
    ensures id in states[i + 1].rows <==>
              id in states[i].rows && !(states[i].rows[id].state == Pending
                                        && 0 < states[i].rows[id].timeoutAt < states[i].sweep.now / 1_000_000)
    ensures id in states[i + 1].rows ==>
              && states[i + 1].rows[id] == states[i].rows[id]
              && (states[i + 1].rows[id].state == Pending ==>
                    states[i + 1].rows[id].timeoutAt <= 0
                    || states[i + 1].rows[id].timeoutAt >= states[i].sweep.now / 1_000_000)
  {
    assert Enabled(re, states[i], steps[i]) && states[i + 1] == Apply(re, states[i], steps[i]);
  }

  lemma HandleAlwaysHere(re: Regexp, s: State, id: string)
    requires Inv(re, s) && id in s.handles
    ensures HandleOk(re, id, s.handles[id], id in s.listed, RowOf(s.rows, id))
  {
  }

  /** Millisecond truncation cannot make a live deadline look expired. */
  lemma FloorSeparates(deadline: int, now: int)
    ensures UnixMilli(deadline) < UnixMilli(now) ==> deadline < now
  {
  }

  /** An ask registered through RegisterAsk is never resolved by an event of the bot itself,
      nor by a message carrying the ask's own id; and what resolves it satisfies the
      caller's filter. */
  lemma AsksIgnoreEchoes(re: Regexp, req: AskRequest, steps: seq<Step>, states: seq<State>, i: nat, id: string,
                         env: Envelope)
    requires IsRun(re, steps, states) && i < |states| && id in states[i].handles
    requires var h := states[i].handles[id];
             && NewCompiledFilter(re, Some(Strengthen(req))).Success?
             && h.filter == NewCompiledFilter(re, Some(Strengthen(req))).value
             && h.accountID == req.accountID && h.kind == Ask
    requires [env] in states[i].handles[id].result.sent
    ensures req.botUserID != "" ==> SenderOf(env.payload) != Some(req.botUserID)
    ensures !(env.payload.Message? && env.payload.eventID == id)
    ensures Sem(re, req.filter, env) && env.accountID == req.accountID
  {
    HandleAlways(re, steps, states, i, id);
    var h := states[i].handles[id];
    hide IsRun, FilterMatches, NewCompiledFilter, Strengthen, Sem;
    assert Accepts(re, id, h, env);
    RegisteredFilterIsExact(re, req, env);
  }
}
