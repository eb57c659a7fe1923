/** Exclusive claims, final states that stay final, and one job per idempotency key. */
module OutboundOwnership {
  import opened Wrappers
  import opened QueueStore
  import opened Outbound

  /** Every held job's row is sending, the holder's copy of its retry count is current, and
      no two workers hold the same job. */
  ghost predicate Exclusive(rows: Table, workers: seq<Worker>) {
    && (forall w :: 0 <= w < |workers| && workers[w].Holding? ==> HeldRow(rows, workers[w]))
    && (forall v, w :: 0 <= v < w < |workers| && workers[v].Holding? && workers[w].Holding? ==>
          workers[v].job != workers[w].job)
  }

  predicate HeldRow(rows: Table, h: Worker)
    requires h.Holding?
  {
    h.job in rows && rows[h.job].state == Sending && rows[h.job].retryCount == h.retry
  }

  ghost predicate Owned(s: State) {
    Exclusive(s.rows, s.workers) && (!s.up ==> s.workers == [])
  }

  /** Rows are never removed, and a row in a final state never changes. */
  ghost predicate TerminalKept(t: Table, t': Table) {
    forall id :: id in t ==> id in t' && (Terminal(t[id].state) ==> t'[id] == t[id])
  }

  /** Only the row of this job may differ. */
  ghost predicate SameElsewhere(t: Table, t': Table, job: string) {
    t'.Keys == t.Keys && forall id :: id in t && id != job ==> t'[id] == t[id]
  }

  lemma ClaimIsExclusive(rows: Table, workers: seq<Worker>, w: nat, id: string, x: Worker)
    requires Exclusive(rows, workers) && w < |workers|
    requires id in rows && rows[id].state == Queued
    requires x.Holding? ==> x.job == id && x.retry == rows[id].retryCount
    ensures Exclusive(SetState(rows, id, Sending), workers[w := x])
    ensures TerminalKept(rows, SetState(rows, id, Sending))
  {
    forall v | 0 <= v < |workers| && workers[v].Holding? ensures workers[v].job != id {
      assert HeldRow(rows, workers[v]);
    }
  }

  lemma ReleaseIsExclusive(rows: Table, workers: seq<Worker>, w: nat, rows': Table, x: Worker)
    requires Exclusive(rows, workers) && w < |workers| && !x.Holding?
    requires workers[w].Holding? ==> SameElsewhere(rows, rows', workers[w].job)
    requires !workers[w].Holding? ==> rows' == rows
    ensures Exclusive(rows', workers[w := x])
    ensures TerminalKept(rows, rows')
  {
    if workers[w].Holding? {
      assert HeldRow(rows, workers[w]);
    }
    forall v | 0 <= v < |workers| && v != w && workers[v].Holding? ensures HeldRow(rows', workers[v]) {
      assert HeldRow(rows, workers[v]);
    }
  }

  lemma OwnedWork(cfg: Config, s: State, w: nat, act: WorkerAction)
    requires Owned(s) && WorkEnabled(cfg, s, w, act)
    ensures Owned(ApplyWork(cfg, s, w, act))
    ensures TerminalKept(s.rows, ApplyWork(cfg, s, w, act).rows)
  {
    var s' := ApplyWork(cfg, s, w, act);
    var claimed := if act.Claim? then Some(act.id) else if act.PullFails? || act.PullPanics? then act.claimed else None;
    if claimed.Some? {
      ClaimIsExclusive(s.rows, s.workers, w, claimed.value, s'.workers[w]);
    } else {
      ReleaseIsExclusive(s.rows, s.workers, w, s'.rows, s'.workers[w]);
    }
    hide Exclusive, TerminalKept;
  }

  lemma OwnedSubmit(cfg: Config, s: State, sub: nat, req: SubmitAction)
    requires Owned(s) && SubmitEnabled(cfg, s, sub, req)
    ensures Owned(ApplySubmit(cfg, s, sub, req))
    ensures TerminalKept(s.rows, ApplySubmit(cfg, s, sub, req).rows)
  {
    SubmitFrame(cfg, s, sub, req);
    hide ApplySubmit, SubmitEnabled, Exclusive, Kept;
  }

  lemma OwnedStep(cfg: Config, s: State, step: Step)
    requires Owned(s) && Enabled(cfg, s, step)
    ensures Owned(Apply(cfg, s, step))
    ensures TerminalKept(s.rows, Apply(cfg, s, step).rows)
  {
    hide ApplyWork, ApplySubmit, WorkEnabled, SubmitEnabled;
    match step
    case Work(w, act) => OwnedWork(cfg, s, w, act);
    case Submit(sub, req) => OwnedSubmit(cfg, s, sub, req);
    case _ =>
  }

  lemma {:induction false} OwnedAlways(cfg: Config, steps: seq<Step>, states: seq<State>, i: nat)
    requires IsRun(cfg, steps, states) && i < |states|
    ensures Owned(states[i])
  {
    hide Apply, Enabled;
    if i > 0 {
      OwnedAlways(cfg, steps, states, i - 1);
      OwnedStep(cfg, states[i - 1], steps[i - 1]);
    }
  }

  /** In every reachable state, no two live workers hold the same job and every held job's
      row is sending. */
  lemma ExclusiveClaim(cfg: Config, steps: seq<Step>, states: seq<State>, i: nat)
    requires IsRun(cfg, steps, states) && i < |states|
    ensures forall v, w :: 0 <= v < w < |states[i].workers|
                           && states[i].workers[v].Holding? && states[i].workers[w].Holding? ==>
                             states[i].workers[v].job != states[i].workers[w].job
    ensures forall w :: 0 <= w < |states[i].workers| && states[i].workers[w].Holding? ==>
                          states[i].workers[w].job in states[i].rows
                          && states[i].rows[states[i].workers[w].job].state == Sending
  {
    OwnedAlways(cfg, steps, states, i);
    forall w | 0 <= w < |states[i].workers| && states[i].workers[w].Holding?
      ensures HeldRow(states[i].rows, states[i].workers[w])
    {
    }
  }

  /** acknowledged and dead_letter are never left, although no update is guarded. */
  lemma {:induction false} TerminalForever(cfg: Config, steps: seq<Step>, states: seq<State>, i: nat, j: nat,
                                           id: string)
    requires IsRun(cfg, steps, states) && i <= j < |states|
    requires id in states[i].rows && Terminal(states[i].rows[id].state)
    ensures id in states[j].rows && states[j].rows[id] == states[i].rows[id]
    decreases j
  {
    hide Apply, Enabled, Owned;
    if i < j {
      TerminalForever(cfg, steps, states, i, j - 1, id);
      OwnedAlways(cfg, steps, states, j - 1);
      OwnedStep(cfg, states[j - 1], steps[j - 1]);
    }
  }
}
