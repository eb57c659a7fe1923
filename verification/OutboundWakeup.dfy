/** No lost wake-up. */
module OutboundWakeup {
  import opened Events
  import opened QueueStore
  import opened Outbound
  import opened OutboundOwnership

  /** A queued job of this account that is due at once. */
  ghost predicate Waiting(t: Table, accountID: string) {
    exists id :: id in t && Due(t[id], accountID)
  }

  predicate Due(r: Row, accountID: string) {
    r.accountID == accountID && r.state == Queued && r.scheduledAt == 0
  }

  /** The worker will pull for accounts[i] before it next blocks. */
  predicate WillVisit(x: Worker, i: nat) {
    match x
    case Scanning(next, worked) => next <= i || worked
    case Holding(_, _, _) => true
    case Reporting(_) => true
    case Parked => false
  }

  /** Some attention is still coming to accounts[i]. */
  ghost predicate Attended(s: State, accountID: string, i: nat) {
    || s.notify
    || accountID in s.owed
    || (exists sub :: sub in s.submitters && s.submitters[sub].Inserted?)
    || (exists w :: 0 <= w < |s.workers| && WillVisit(s.workers[w], i))
  }

  /** Every account with a job waiting is attended. */
  ghost predicate Awake(cfg: Config, s: State) {
    s.up ==>
      && |s.workers| == cfg.concurrency
      && forall i :: 0 <= i < |cfg.accounts| && Waiting(s.rows, cfg.accounts[i]) ==> Attended(s, cfg.accounts[i], i)
  }

  /** A worker that goes on to visit accounts[i] keeps the account attended whatever else
      happened; one that passes accounts[i] by may do so only if it found nothing there, or
      leaves the account owed. */
  lemma PassingBy(cfg: Config, s: State, s': State, w: nat, i: nat)
    requires i < |cfg.accounts| && w < |s.workers|
    requires s'.submitters == s.submitters && |s'.workers| == |s.workers| && s'.workers == s.workers[w := s'.workers[w]]
    requires WillVisit(s'.workers[w], i) ||
             (&& Attended(s, cfg.accounts[i], i)
              && (WillVisit(s.workers[w], i) ==> cfg.accounts[i] in s'.owed)
              && (s.notify ==> s'.notify)
              && (cfg.accounts[i] in s.owed ==> cfg.accounts[i] in s'.owed))
    ensures Attended(s', cfg.accounts[i], i)
  {
    if WillVisit(s'.workers[w], i) {
    } else if v :| 0 <= v < |s.workers| && WillVisit(s.workers[v], i) {
      assert v != w ==> s'.workers[v] == s.workers[v];
    }
  }

  lemma NothingWaits(t: Table, accountID: string, now: nat)
    requires NothingEligible(t, accountID, now)
    ensures !Waiting(t, accountID)
  {
    forall id | id in t && Due(t[id], accountID) ensures false {
      assert Eligible(t[id], accountID, now);
    }
  }

  lemma ClaimLeavesFewerWaiting(t: Table, id: string, accountID: string)
    requires id in t
    ensures Waiting(t[id := t[id].(state := Sending)], accountID) ==> Waiting(t, accountID)
  {
    var t' := t[id := t[id].(state := Sending)];
    if j :| j in t' && Due(t'[j], accountID) {
      assert t'[j] == t[j];
    }
  }

  /** Where a worker step leads, as far as later visits go. */
  lemma WorkVisits(cfg: Config, s: State, w: nat, act: WorkerAction, i: nat)
    requires WorkEnabled(cfg, s, w, act) && i < |cfg.accounts|
    ensures var s' := ApplyWork(cfg, s, w, act);
            || WillVisit(s'.workers[w], i)
            || (act.EndPass? && !WillVisit(s.workers[w], i) && s'.rows == s.rows && s'.owed == s.owed)
            || (act.NothingToPull? && s'.rows == s.rows && s'.owed == s.owed - {cfg.accounts[s.workers[w].next]}
                && (i == s.workers[w].next || !WillVisit(s.workers[w], i)))
            || (act.PullFails? && s'.owed == s.owed + {cfg.accounts[s.workers[w].next]}
                && (i == s.workers[w].next || !WillVisit(s.workers[w], i)))
  {
  }

  lemma AwakeWork(cfg: Config, s: State, w: nat, act: WorkerAction)
    requires Awake(cfg, s) && Owned(s) && WorkEnabled(cfg, s, w, act)
    ensures Awake(cfg, ApplyWork(cfg, s, w, act))
  {
    var s' := ApplyWork(cfg, s, w, act);
    var me := s.workers[w];
    assert me.Holding? ==> HeldRow(s.rows, me);
    WorkFrame(cfg, s, w, act);
    WorkRows(cfg, s, w, act);
    hide Exclusive;
    forall i | 0 <= i < |cfg.accounts| && Waiting(s'.rows, cfg.accounts[i]) ensures Attended(s', cfg.accounts[i], i) {
      WorkVisits(cfg, s, w, act, i);
      if act.NothingToPull? {
        NothingWaits(s.rows, cfg.accounts[me.next], UnixMilli(s.clock));
      }
      if act.PullFails? && act.claimed.Some? {
        ClaimLeavesFewerWaiting(s.rows, act.claimed.value, cfg.accounts[i]);
      }
      hide ApplyWork, WorkEnabled, WillVisit, Waiting, Attended;
      PassingBy(cfg, s, s', w, i);
    }
  }

  lemma AwakeSubmit(cfg: Config, s: State, sub: nat, req: SubmitAction)
    requires Awake(cfg, s) && SubmitEnabled(cfg, s, sub, req)
    ensures Awake(cfg, ApplySubmit(cfg, s, sub, req))
  {
    var s' := ApplySubmit(cfg, s, sub, req);
    SubmitFrame(cfg, s, sub, req);
    SubmitAttention(cfg, s, sub, req);
    forall i | 0 <= i < |cfg.accounts| && Waiting(s'.rows, cfg.accounts[i]) ensures Attended(s', cfg.accounts[i], i) {
      hide ApplySubmit, SubmitEnabled, WillVisit;
      if s'.rows != s.rows && sub !in s'.submitters && s.submitters[sub].accountID != cfg.accounts[i] {
        OtherAccountWaits(s.rows, s'.rows, s.submitters[sub].id, cfg.accounts[i]);
      }
    }
  }

  lemma OtherAccountWaits(t: Table, t': Table, id: string, accountID: string)
    requires id in t' && t' == t[id := t'[id]] && t'[id].accountID != accountID && Waiting(t', accountID)
    ensures Waiting(t, accountID)
  {
    var j :| j in t' && Due(t'[j], accountID);
    assert j in t && Due(t[j], accountID);
  }

  /** A submission step that writes a row leaves a pending wake-up or an owed account; no
      other one takes attention away. */
  lemma SubmitAttention(cfg: Config, s: State, sub: nat, req: SubmitAction)
    requires SubmitEnabled(cfg, s, sub, req)
    ensures var s' := ApplySubmit(cfg, s, sub, req);
            && s.owed <= s'.owed && (s.notify ==> s'.notify)
            && (s'.rows != s.rows ==>
                  && req.Insert? && s.submitters[sub].id in s'.rows
                  && s'.rows[s.submitters[sub].id].accountID == s.submitters[sub].accountID
                  && ((sub in s'.submitters && s'.submitters[sub].Inserted?)
                      || (sub !in s'.submitters && s.submitters[sub].accountID in s'.owed)))
            && (forall other :: other in s.submitters && s.submitters[other].Inserted? ==>
                  s'.notify || (other in s'.submitters && s'.submitters[other].Inserted?))
  {
  }

  lemma AwakeStep(cfg: Config, s: State, step: Step)
    requires Awake(cfg, s) && Enabled(cfg, s, step)
    requires Owned(s) && cfg.concurrency > 0
    ensures Awake(cfg, Apply(cfg, s, step))
  {
    match step
    case Work(w, act) =>
      hide ApplyWork, Awake, Owned;
      AwakeWork(cfg, s, w, act);
    case Submit(sub, req) =>
      hide ApplySubmit, Awake;
      AwakeSubmit(cfg, s, sub, req);
    case Restart =>
      hide ApplyWork, ApplySubmit, WorkEnabled, SubmitEnabled, RestoreRows, Waiting;
      var s' := Apply(cfg, s, step);
      assert s'.workers[0] == Scanning(0, false);
    case _ =>
  }

  lemma {:induction false} AwakeAlways(cfg: Config, steps: seq<Step>, states: seq<State>, i: nat)
    requires cfg.concurrency > 0 && IsRun(cfg, steps, states) && i < |states|
    ensures Awake(cfg, states[i])
  {
    hide Apply, Enabled;
    if i > 0 {
      AwakeAlways(cfg, steps, states, i - 1);
      OwnedAlways(cfg, steps, states, i - 1);
      hide Awake, Owned;
      AwakeStep(cfg, states[i - 1], steps[i - 1]);
    }
  }

  /** All workers blocked, the channel empty, and no submitter between its insert and its
      wake-up. */
  predicate Quiet(s: State) {
    && s.up && !s.notify
    && (forall w :: 0 <= w < |s.workers| ==> s.workers[w].Parked?)
    && (forall sub :: sub in s.submitters ==> !s.submitters[sub].Inserted?)
  }

  /** When everything is quiet, no serviced account has a queued job that is due at once,
      unless its last pull failed or an insert reported a failure after taking effect. */
  lemma NoLostWakeup(cfg: Config, steps: seq<Step>, states: seq<State>, i: nat, id: string)
    requires cfg.concurrency > 0 && IsRun(cfg, steps, states) && i < |states| && Quiet(states[i])
    requires id in states[i].rows && states[i].rows[id].accountID in cfg.accounts
    requires states[i].rows[id].accountID !in states[i].owed
    ensures states[i].rows[id].state != Queued || states[i].rows[id].scheduledAt != 0
  {
    var s := states[i];
    AwakeAlways(cfg, steps, states, i);
    var a := s.rows[id].accountID;
    var k :| 0 <= k < |cfg.accounts| && cfg.accounts[k] == a;
    QuietIsUnattended(s, a, k);
    assert Due(s.rows[id], a) ==> Waiting(s.rows, a);
  }

  lemma QuietIsUnattended(s: State, accountID: string, i: nat)
    requires Quiet(s) && accountID !in s.owed
    ensures !Attended(s, accountID, i)
  {
  }

  /** An account is owed a poll only after a store fault, and only until a pull succeeds in
      finding nothing for it. */
  lemma OwedOnlyAfterFaults(cfg: Config, s: State, step: Step, accountID: string)
    requires Enabled(cfg, s, step)
    ensures var s' := Apply(cfg, s, step);
            && (accountID in s'.owed && accountID !in s.owed ==>
                  || (step.Work? && step.act.PullFails?)
                  || (step.Submit? && step.req.Insert? && step.req.fault == AfterWrite))
            && (step.Work? && step.act.NothingToPull? && cfg.accounts[s.workers[step.w].next] == accountID ==>
                  accountID !in s'.owed)
  {
    match step
    case Work(w, act) => WorkFrame(cfg, s, w, act); hide ApplySubmit;
    case Submit(sub, req) => hide ApplyWork;
    case _ =>
  }
}
