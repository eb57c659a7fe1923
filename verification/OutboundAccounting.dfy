/** Attempt accounting, termination, and the order of first claims. */
module OutboundAccounting {
  import opened Wrappers
  import opened Backoff
  import opened Events
  import opened QueueStore
  import opened Queue
  import opened Outbound
  import opened OutboundOwnership

  /** Every claim of a job is accounted for: by a retry, by the attempt in progress or
      finished, or by an interruption that a restart put back. */
  predicate RowAccounted(cfg: Config, row: Row, pulls: nat, interruptions: nat) {
    && row.retryCount <= cfg.policy.maxRetries
    && pulls == row.retryCount + (if row.state == Queued then 0 else 1) + interruptions
    && (row.retryCount == 0 ==> row.scheduledAt == 0)
  }

  ghost predicate Accounted(cfg: Config, rows: Table, pulls: map<string, nat>, interruptions: map<string, nat>) {
    && (forall id :: id in rows ==> RowAccounted(cfg, rows[id], Count(pulls, id), Count(interruptions, id)))
    && (forall id :: id !in rows ==> Count(pulls, id) == 0 && Count(interruptions, id) == 0)
  }

  ghost predicate StateAccounted(cfg: Config, s: State) {
    Accounted(cfg, s.rows, s.pulls, s.interruptions)
  }

  lemma SettledAccounted(cfg: Config, row: Row, act: WorkerAction, clock: nat, pulls: nat, interruptions: nat)
    requires RowAccounted(cfg, row, pulls, interruptions) && row.state == Sending && Settles(act)
    ensures RowAccounted(cfg, Settle(cfg.policy, row, act, clock), pulls, interruptions)
  {
  }

  lemma AccountedUpdate(cfg: Config, s: State, id: string, row: Row, claims: nat)
    requires StateAccounted(cfg, s)
    requires RowAccounted(cfg, row, claims, Count(s.interruptions, id))
    ensures Accounted(cfg, s.rows[id := row], s.pulls[id := claims], s.interruptions)
    ensures claims == Count(s.pulls, id) ==> Accounted(cfg, s.rows[id := row], s.pulls, s.interruptions)
  {
    hide RowAccounted;
  }

  lemma ClaimAccounted(cfg: Config, s: State, id: string)
    requires StateAccounted(cfg, s) && id in s.rows && s.rows[id].state == Queued
    ensures RowAccounted(cfg, s.rows[id].(state := Sending), Count(s.pulls, id) + 1, Count(s.interruptions, id))
  {
    assert RowAccounted(cfg, s.rows[id], Count(s.pulls, id), Count(s.interruptions, id));
  }

  lemma HeldAccounted(cfg: Config, s: State, id: string, act: WorkerAction)
    requires StateAccounted(cfg, s) && id in s.rows && s.rows[id].state == Sending && Settles(act)
    ensures RowAccounted(cfg, Settle(cfg.policy, s.rows[id], act, s.clock), Count(s.pulls, id),
                         Count(s.interruptions, id))
  {
    assert RowAccounted(cfg, s.rows[id], Count(s.pulls, id), Count(s.interruptions, id));
    hide RowAccounted, Settle;
    SettledAccounted(cfg, s.rows[id], act, s.clock, Count(s.pulls, id), Count(s.interruptions, id));
  }

  /** A worker step claims one row, settles one row, or leaves the table alone. */
  lemma WorkKinds(cfg: Config, s: State, w: nat, act: WorkerAction) returns (id: string)
    requires Owned(s) && WorkEnabled(cfg, s, w, act)
    ensures var s' := ApplyWork(cfg, s, w, act);
            && s'.interruptions == s.interruptions
            && (Claimed(act).Some? || Settles(act) ==> id in s.rows)
            && (Claimed(act).Some? ==>
                  && s.rows[id].state == Queued && s'.rows == s.rows[id := s.rows[id].(state := Sending)]
                  && s'.pulls == s.pulls[id := Count(s.pulls, id) + 1])
            && (Claimed(act).None? && Settles(act) ==>
                  && s.rows[id].state == Sending
                  && s'.rows == s.rows[id := Settle(cfg.policy, s.rows[id], act, s.clock)]
                  && s'.pulls == s.pulls)
            && (Claimed(act).None? && !Settles(act) ==> s'.rows == s.rows && s'.pulls == s.pulls)
  {
    var me := s.workers[w];
    if me.Holding? {
      assert HeldRow(s.rows, me);
    }
    hide ApplyWork, WorkEnabled, Owned, Settle, Count;
    WorkRows(cfg, s, w, act);
    WorkFrame(cfg, s, w, act);
    id := if Claimed(act).Some? then Claimed(act).value else if me.Holding? then me.job else "";
  }

  lemma AccountedWork(cfg: Config, s: State, w: nat, act: WorkerAction)
    requires Owned(s) && StateAccounted(cfg, s) && WorkEnabled(cfg, s, w, act)
    ensures StateAccounted(cfg, ApplyWork(cfg, s, w, act))
  {
    hide ApplyWork, WorkEnabled, Owned, Settle, RowAccounted, Accounted, Count, Claimed, Settles;
    var id := WorkKinds(cfg, s, w, act);
    if Claimed(act).Some? {
      ClaimAccounted(cfg, s, id);
      AccountedUpdate(cfg, s, id, s.rows[id].(state := Sending), Count(s.pulls, id) + 1);
    } else if Settles(act) {
      HeldAccounted(cfg, s, id, act);
      AccountedUpdate(cfg, s, id, Settle(cfg.policy, s.rows[id], act, s.clock), Count(s.pulls, id));
    }
  }

  lemma AccountedSubmit(cfg: Config, s: State, sub: nat, req: SubmitAction)
    requires StateAccounted(cfg, s) && SubmitEnabled(cfg, s, sub, req)
    ensures StateAccounted(cfg, ApplySubmit(cfg, s, sub, req))
  {
    SubmitFrame(cfg, s, sub, req);
    var s' := ApplySubmit(cfg, s, sub, req);
    if s'.rows != s.rows {
      var p := s.submitters[sub];
      assert s'.rows[p.id] == NewRow(p.accountID, req.payload, p.key, p.createdAt);
      assert Count(s.pulls, p.id) == 0 && Count(s.interruptions, p.id) == 0;
      AccountedUpdate(cfg, s, p.id, s'.rows[p.id], 0);
    }
    hide Kept, ApplySubmit, SubmitEnabled;
  }

  lemma AccountedRestore(cfg: Config, s: State, fault: Fault)
    requires StateAccounted(cfg, s)
    ensures StateAccounted(cfg, RestoreRows(s, fault))
  {
  }

  lemma AccountedStep(cfg: Config, s: State, step: Step)
    requires Owned(s) && StateAccounted(cfg, s) && Enabled(cfg, s, step)
    ensures StateAccounted(cfg, Apply(cfg, s, step))
  {
    hide ApplyWork, ApplySubmit, WorkEnabled, SubmitEnabled, Exclusive, RestoreRows, Accounted;
    match step
    case Work(w, act) => AccountedWork(cfg, s, w, act);
    case Submit(sub, req) => AccountedSubmit(cfg, s, sub, req);
    case RestoreFails(fault) => AccountedRestore(cfg, s, fault);
    case Restart => AccountedRestore(cfg, s, NoFault);
    case _ =>
  }

  lemma {:induction false} AccountedAlways(cfg: Config, steps: seq<Step>, states: seq<State>, i: nat)
    requires IsRun(cfg, steps, states) && i < |states|
    ensures Owned(states[i]) && StateAccounted(cfg, states[i])
  {
    OwnedAlways(cfg, steps, states, i);
    hide Apply, Enabled, Owned;
    if i > 0 {
      AccountedAlways(cfg, steps, states, i - 1);
      AccountedStep(cfg, states[i - 1], steps[i - 1]);
    }
  }

  /** In every reachable state the retry count is within the policy, claims are exactly
      retries plus the open or final attempt plus interruptions, and so a job is never
      claimed more than MaxRetries + 1 times beyond its interruptions. */
  lemma AttemptsAreAccounted(cfg: Config, steps: seq<Step>, states: seq<State>, i: nat, id: string)
    requires IsRun(cfg, steps, states) && i < |states| && id in states[i].rows
    ensures var s := states[i];
            var row := s.rows[id];
            && row.retryCount <= cfg.policy.maxRetries
            && Count(s.pulls, id) ==
                 row.retryCount + (if row.state == Queued then 0 else 1) + Count(s.interruptions, id)
            && Count(s.pulls, id) <= cfg.policy.maxRetries + 1 + Count(s.interruptions, id)
  {
    AccountedAlways(cfg, steps, states, i);
    assert RowAccounted(cfg, states[i].rows[id], Count(states[i].pulls, id), Count(states[i].interruptions, id));
  }

  // # Termination

  /** Work left in a job. */
  function Measure(cfg: Config, row: Row): int {
    2 * (cfg.policy.maxRetries - row.retryCount)
    + match row.state
      case Queued => 2
      case Sending => 1
      case _ => 0
  }

  predicate IsRestore(step: Step) {
    step.Restart? || step.RestoreFails?
  }

  /** The step claims this job or ends its attempt, and the write reached the table. */
  predicate JobStep(s: State, step: Step, id: string) {
    && step.Work? && step.w < |s.workers|
    && (Claimed(step.act) == Some(id) ||
        (Settles(step.act) && s.workers[step.w].Holding? && s.workers[step.w].job == id))
  }

  lemma MeasureWork(cfg: Config, s: State, w: nat, act: WorkerAction, id: string)
    requires Owned(s) && WorkEnabled(cfg, s, w, act) && id in s.rows
    ensures var s' := ApplyWork(cfg, s, w, act);
            && id in s'.rows
            && (JobStep(s, Work(w, act), id) ==> Measure(cfg, s'.rows[id]) < Measure(cfg, s.rows[id]))
            && (!JobStep(s, Work(w, act), id) ==> s'.rows[id] == s.rows[id])
  {
    if s.workers[w].Holding? {
      assert HeldRow(s.rows, s.workers[w]);
    }
    WorkRows(cfg, s, w, act);
    hide Exclusive, ApplyWork, WorkEnabled, NextScheduledAt;
  }

  /** Every step on a job strictly decreases its measure; no other step touches its row,
      except a restore. */
  lemma MeasureStep(cfg: Config, s: State, step: Step, id: string)
    requires Owned(s) && Enabled(cfg, s, step) && id in s.rows && !IsRestore(step)
    ensures var s' := Apply(cfg, s, step);
            && id in s'.rows
            && (JobStep(s, step, id) ==> Measure(cfg, s'.rows[id]) < Measure(cfg, s.rows[id]))
            && (!JobStep(s, step, id) ==> s'.rows[id] == s.rows[id])
  {
    hide ApplyWork, ApplySubmit, WorkEnabled, SubmitEnabled, Exclusive, Measure;
    match step
    case Work(w, act) => MeasureWork(cfg, s, w, act, id);
    case Submit(sub, req) => SubmitFrame(cfg, s, sub, req);
    case _ =>
  }

  /** How many of the steps from i to j work on this job. */
  ghost function JobSteps(steps: seq<Step>, states: seq<State>, i: nat, j: nat, id: string): nat
    requires i <= j <= |steps| < |states|
  {
    if i == j then 0
    else JobSteps(steps, states, i, j - 1, id) + if JobStep(states[j - 1], steps[j - 1], id) then 1 else 0
  }

  lemma {:induction false} MeasureBoundsSteps(cfg: Config, steps: seq<Step>, states: seq<State>, i: nat, j: nat,
                                              id: string)
    requires IsRun(cfg, steps, states) && i <= j < |states| && id in states[i].rows
    requires forall k :: i <= k < j ==> !IsRestore(steps[k])
    ensures id in states[j].rows
    ensures JobSteps(steps, states, i, j, id) + Measure(cfg, states[j].rows[id]) <= Measure(cfg, states[i].rows[id])
    decreases j
  {
    hide Apply, Enabled, Measure, JobStep, Owned;
    if i < j {
      MeasureBoundsSteps(cfg, steps, states, i, j - 1, id);
      OwnedAlways(cfg, steps, states, j - 1);
      MeasureStep(cfg, states[j - 1], steps[j - 1], id);
    }
  }

  /** Between restarts, at most 2 * MaxRetries + 2 steps ever work on a job: each is pulled
      and settled, and then left alone. */
  lemma JobsTerminate(cfg: Config, steps: seq<Step>, states: seq<State>, i: nat, j: nat, id: string)
    requires IsRun(cfg, steps, states) && i <= j < |states| && id in states[i].rows
    requires forall k :: i <= k < j ==> !IsRestore(steps[k])
    ensures JobSteps(steps, states, i, j, id) <= 2 * cfg.policy.maxRetries + 2
    ensures Terminal(states[i].rows[id].state) ==> JobSteps(steps, states, i, j, id) == 0
  {
    MeasureBoundsSteps(cfg, steps, states, i, j, id);
    AttemptsAreAccounted(cfg, steps, states, i, id);
    AttemptsAreAccounted(cfg, steps, states, j, id);
    if Terminal(states[i].rows[id].state) {
      TerminalForever(cfg, steps, states, i, j, id);
    }
  }

  // # First claims

  /** A job never claimed is queued, unretried and due at once. */
  lemma NeverClaimedIsFresh(cfg: Config, s: State, id: string)
    requires StateAccounted(cfg, s) && id in s.rows && Count(s.pulls, id) == 0
    ensures s.rows[id].state == Queued && s.rows[id].retryCount == 0 && s.rows[id].scheduledAt == 0
  {
    assert RowAccounted(cfg, s.rows[id], Count(s.pulls, id), Count(s.interruptions, id));
  }

  /** When a job is claimed for the first time, every older job of its account has been
      claimed before it; and a claim that passes over a never-claimed job of the account
      can only be of a job scheduled no later than time zero. */
  lemma FirstClaimOrder(cfg: Config, steps: seq<Step>, states: seq<State>, i: nat, id: string, other: string)
    requires IsRun(cfg, steps, states) && i < |steps| && steps[i].Work? && Claimed(steps[i].act) == Some(id)
    requires other in states[i].rows
    ensures id in states[i].rows
    ensures var s := states[i];
            s.rows[other].accountID == s.rows[id].accountID && Count(s.pulls, other) == 0 ==>
              && s.rows[id].scheduledAt <= 0
              && (Count(s.pulls, id) == 0 ==> s.rows[id].createdAt <= s.rows[other].createdAt)
  {
    var s := states[i];
    AccountedAlways(cfg, steps, states, i);
    assert Enabled(cfg, s, steps[i]);
    hide IsRun, Owned;
    if s.rows[other].accountID == s.rows[id].accountID && Count(s.pulls, other) == 0 {
      NeverClaimedIsFresh(cfg, s, other);
      assert Eligible(s.rows[other], s.rows[id].accountID, UnixMilli(s.clock));
      if Count(s.pulls, id) == 0 {
        NeverClaimedIsFresh(cfg, s, id);
      }
    }
  }
}
