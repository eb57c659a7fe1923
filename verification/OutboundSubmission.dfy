/** Idempotent submission under races (internal/submission, and Enqueue's second lookup). */
module OutboundSubmission {
  import opened Events
  import opened QueueStore
  import opened Queue
  import opened Outbound

  /** The unique index: at most one row per account and non-empty key. */
  ghost predicate KeysUnique(t: Table) {
    forall i, j :: i in t && j in t && SameKey(t[i], t[j]) ==> i == j
  }

  predicate SameKey(a: Row, b: Row) {
    a.accountID == b.accountID && a.idempotencyKey == b.idempotencyKey && a.idempotencyKey != ""
  }

  /** A job id handed out for (account, key) names a row with that account and key. */
  predicate Names(t: Table, accountID: string, key: string, id: string) {
    id in t && HasKey(t[id], accountID, key)
  }

  ghost predicate Consistent(s: State) {
    && KeysUnique(s.rows)
    && (forall r :: r in s.returned ==> Names(s.rows, r.0, r.1, r.2))
    && (forall sub :: sub in s.submitters && s.submitters[sub].Inserted? ==>
          Names(s.rows, s.submitters[sub].accountID, s.submitters[sub].key, s.submitters[sub].id))
  }

  lemma UniqueWhenKept(t: Table, t': Table)
    requires KeysUnique(t) && Kept(t, t') && t'.Keys == t.Keys
    ensures KeysUnique(t')
  {
    forall i, j | i in t' && j in t' && SameKey(t'[i], t'[j]) ensures i == j {
      assert Same(t[i], t'[i]) && Same(t[j], t'[j]);
    }
  }

  lemma NamesKept(t: Table, t': Table, accountID: string, key: string, id: string)
    requires Kept(t, t') && Names(t, accountID, key, id)
    ensures Names(t', accountID, key, id)
  {
    assert Same(t[id], t'[id]);
  }

  lemma NamesStillKept(s: State, t': Table)
    requires Consistent(s) && Kept(s.rows, t')
    ensures forall r :: r in s.returned ==> Names(t', r.0, r.1, r.2)
    ensures forall sub :: sub in s.submitters && s.submitters[sub].Inserted? ==>
              Names(t', s.submitters[sub].accountID, s.submitters[sub].key, s.submitters[sub].id)
  {
    forall r | r in s.returned ensures Names(t', r.0, r.1, r.2) {
      NamesKept(s.rows, t', r.0, r.1, r.2);
    }
    forall sub | sub in s.submitters && s.submitters[sub].Inserted?
      ensures Names(t', s.submitters[sub].accountID, s.submitters[sub].key, s.submitters[sub].id)
    {
      NamesKept(s.rows, t', s.submitters[sub].accountID, s.submitters[sub].key, s.submitters[sub].id);
    }
  }

  lemma ConsistentSubmit(cfg: Config, s: State, sub: nat, req: SubmitAction)
    requires Consistent(s) && SubmitEnabled(cfg, s, sub, req)
    ensures Consistent(ApplySubmit(cfg, s, sub, req))
  {
    var s' := ApplySubmit(cfg, s, sub, req);
    SubmitFrame(cfg, s, sub, req);
    NamesStillKept(s, s'.rows);
    if s'.rows != s.rows {
      var p := s.submitters[sub];
      InsertKeepsUnique(s.rows, p.id, NewRow(p.accountID, req.payload, p.key, p.createdAt));
    }
    hide KeysUnique, Kept;
  }

  lemma ConsistentWork(cfg: Config, s: State, w: nat, act: WorkerAction)
    requires Consistent(s) && WorkEnabled(cfg, s, w, act)
    ensures Consistent(ApplyWork(cfg, s, w, act))
  {
    WorkFrame(cfg, s, w, act);
    WorkKeeps(cfg, s, w, act);
    var s' := ApplyWork(cfg, s, w, act);
    NamesStillKept(s, s'.rows);
    WorkAddsNoRow(cfg, s, w, act);
    UniqueWhenKept(s.rows, s'.rows);
    hide ApplyWork;
  }

  lemma WorkAddsNoRow(cfg: Config, s: State, w: nat, act: WorkerAction)
    requires WorkEnabled(cfg, s, w, act)
    ensures ApplyWork(cfg, s, w, act).rows.Keys == s.rows.Keys
  {
  }

  lemma ConsistentStep(cfg: Config, s: State, step: Step)
    requires Consistent(s) && Enabled(cfg, s, step)
    ensures Consistent(Apply(cfg, s, step))
  {
    hide ApplyWork, ApplySubmit, WorkEnabled, SubmitEnabled;
    match step
    case Work(w, act) => ConsistentWork(cfg, s, w, act);
    case Submit(sub, req) => ConsistentSubmit(cfg, s, sub, req);
    case _ =>
      var s' := Apply(cfg, s, step);
      KeptStep(cfg, s, step);
      NamesStillKept(s, s'.rows);
      UniqueWhenKept(s.rows, s'.rows);
  }

  lemma InsertKeepsUnique(t: Table, id: string, row: Row)
    requires KeysUnique(t) && !Conflicts(t, id, row)
    ensures KeysUnique(t[id := row])
  {
  }

  lemma {:induction false} ConsistentAlways(cfg: Config, steps: seq<Step>, states: seq<State>, i: nat)
    requires IsRun(cfg, steps, states) && i < |states|
    ensures Consistent(states[i])
  {
    hide Apply, Enabled;
    if i > 0 {
      ConsistentAlways(cfg, steps, states, i - 1);
      ConsistentStep(cfg, states[i - 1], steps[i - 1]);
    }
  }

  lemma {:induction false} ReturnedStays(cfg: Config, steps: seq<Step>, states: seq<State>, i: nat, j: nat)
    requires IsRun(cfg, steps, states) && i <= j < |states|
    ensures states[i].returned <= states[j].returned
    decreases j
  {
    hide Apply, Enabled;
    if i < j {
      ReturnedStays(cfg, steps, states, i, j - 1);
      KeptStep(cfg, states[j - 1], steps[j - 1]);
    }
  }

  /** Whatever the interleaving of lookups, inserts, faults and crashes, all calls that
      ever succeed for one account and non-empty key return one and the same job, and the
      table holds exactly one row for them. */
  lemma IdempotentSubmission(cfg: Config, steps: seq<Step>, states: seq<State>, i: nat, j: nat,
                             accountID: string, key: string, id1: string, id2: string)
    requires IsRun(cfg, steps, states) && i <= j < |states| && key != ""
    requires (accountID, key, id1) in states[i].returned && (accountID, key, id2) in states[j].returned
    ensures id1 == id2
    ensures forall id :: id in states[j].rows && HasKey(states[j].rows[id], accountID, key) <==> id == id1
  {
    ReturnedStays(cfg, steps, states, i, j);
    ConsistentAlways(cfg, steps, states, j);
    var t := states[j].rows;
    assert Names(t, accountID, key, id1) && Names(t, accountID, key, id2);
    assert SameKey(t[id1], t[id2]);
    forall id | id in t && HasKey(t[id], accountID, key) ensures id == id1 {
      assert SameKey(t[id], t[id1]);
    }
  }

  // # Where rows come from

  /** Step b began this submission, in the caller's words. */
  predicate BeganAt(steps: seq<Step>, b: nat, sub: nat, accountID: string, key: string) {
    b < |steps| && steps[b] == Submit(sub, Begin(accountID, key))
  }

  /** Step p fixed this id, and read the clock. */
  predicate PlannedAt(steps: seq<Step>, states: seq<State>, p: nat, sub: nat, id: string, createdAt: int) {
    p < |steps| && p < |states| && steps[p] == Submit(sub, Plan(id)) && createdAt == states[p].clock / 1_000_000
  }

  /** Step k wrote this message for a submission that began and was planned before, and the
      row says so. */
  predicate WrittenAt(steps: seq<Step>, states: seq<State>, b: nat, p: nat, k: nat, sub: nat, id: string, row: Row) {
    && b < p < k < |steps|
    && BeganAt(steps, b, sub, row.accountID, row.idempotencyKey)
    && PlannedAt(steps, states, p, sub, id, row.createdAt)
    && steps[k].Submit? && steps[k].sub == sub && steps[k].req.Insert? && steps[k].req.payload == row.payload
  }

  /** Submissions change only by their own steps: they keep account and key, and are planned by
      a Plan. */
  lemma SubmissionStep(cfg: Config, s: State, sub: nat, req: SubmitAction)
    requires SubmitEnabled(cfg, s, sub, req)
    ensures var after := ApplySubmit(cfg, s, sub, req).submitters;
            && (forall other :: other in after && other != sub ==>
                  other in s.submitters && after[other] == s.submitters[other])
            && (sub in after ==>
                  && (req == Begin(after[sub].accountID, after[sub].key)
                      || (sub in s.submitters && after[sub].accountID == s.submitters[sub].accountID
                          && after[sub].key == s.submitters[sub].key))
                  && (after[sub].Inserting? ==>
                        req == Plan(after[sub].id) && after[sub].createdAt == s.clock / 1_000_000))
  {
    hide KeyFree, HasKey, Conflicts;
  }

  lemma OtherStep(cfg: Config, s: State, step: Step)
    requires Enabled(cfg, s, step) && !step.Submit?
    ensures Apply(cfg, s, step).submitters == s.submitters || Apply(cfg, s, step).submitters == map[]
    ensures Apply(cfg, s, step).rows.Keys == s.rows.Keys
  {
    hide WorkEnabled, ApplyWork;
    if step.Work? {
      WorkFrame(cfg, s, step.w, step.act);
      WorkAddsNoRow(cfg, s, step.w, step.act);
    }
  }

  /** How a submission under way came to be what it is: unchanged, just begun, or moved on. */
  predicate MovedTo(s: State, step: Step, sub: nat, x: Submitter) {
    || (sub in s.submitters && x == s.submitters[sub])
    || step == Submit(sub, Begin(x.accountID, x.key))
    || (sub in s.submitters && x.accountID == s.submitters[sub].accountID && x.key == s.submitters[sub].key
        && (x.Inserting? ==> step == Submit(sub, Plan(x.id)) && x.createdAt == s.clock / 1_000_000))
  }

  lemma EverySubmissionMoves(cfg: Config, s: State, step: Step, sub: nat)
    requires Enabled(cfg, s, step) && sub in Apply(cfg, s, step).submitters
    ensures MovedTo(s, step, sub, Apply(cfg, s, step).submitters[sub])
  {
    if step.Submit? {
      SubmissionStep(cfg, s, step.sub, step.req);
      hide ApplySubmit, SubmitEnabled;
    } else {
      OtherStep(cfg, s, step);
    }
  }

  /** Every submission under way was begun with its account and key. */
  lemma {:induction false} SubmissionBegan(cfg: Config, steps: seq<Step>, states: seq<State>, i: nat, sub: nat)
    returns (b: nat)
    requires IsRun(cfg, steps, states) && i < |states| && sub in states[i].submitters
    ensures b < i && BeganAt(steps, b, sub, states[i].submitters[sub].accountID, states[i].submitters[sub].key)
  {
    hide Apply, Enabled;
    assert i > 0;
    EverySubmissionMoves(cfg, states[i - 1], steps[i - 1], sub);
    if steps[i - 1] == Submit(sub, Begin(states[i].submitters[sub].accountID, states[i].submitters[sub].key)) {
      b := i - 1;
    } else {
      b := SubmissionBegan(cfg, steps, states, i - 1, sub);
    }
  }

  /** A submission about to insert was planned, after it began. */
  lemma {:induction false} InsertionPlanned(cfg: Config, steps: seq<Step>, states: seq<State>, i: nat, sub: nat)
    returns (b: nat, p: nat)
    requires IsRun(cfg, steps, states) && i < |states|
    requires sub in states[i].submitters && states[i].submitters[sub].Inserting?
    ensures var x := states[i].submitters[sub];
            && b < p < i && BeganAt(steps, b, sub, x.accountID, x.key)
            && PlannedAt(steps, states, p, sub, x.id, x.createdAt)
  {
    hide Apply, Enabled;
    assert i > 0;
    EverySubmissionMoves(cfg, states[i - 1], steps[i - 1], sub);
    var x := states[i].submitters[sub];
    if sub in states[i - 1].submitters && states[i - 1].submitters[sub] == x {
      b, p := InsertionPlanned(cfg, steps, states, i - 1, sub);
    } else {
      BeginDoesNotPlan(cfg, states[i - 1], steps[i - 1], sub);
      b := SubmissionBegan(cfg, steps, states, i - 1, sub);
      p := i - 1;
    }
  }

  lemma BeginDoesNotPlan(cfg: Config, s: State, step: Step, sub: nat)
    requires Enabled(cfg, s, step)
    ensures step.Submit? && step.sub == sub && step.req.Begin? ==>
              sub in Apply(cfg, s, step).submitters && Apply(cfg, s, step).submitters[sub].Checking?
  {
  }

  /** A new row is written by an Insert, with the submission's values and the step's message. */
  lemma NewRowStep(cfg: Config, s: State, step: Step, id: string)
    requires Enabled(cfg, s, step) && id in Apply(cfg, s, step).rows && id !in s.rows
    ensures step.Submit? && step.req.Insert? && step.sub in s.submitters && s.submitters[step.sub].Inserting?
    ensures var x, row := s.submitters[step.sub], Apply(cfg, s, step).rows[id];
            x.id == id && IsNewJob(row, x.accountID, step.req.payload, x.key, x.createdAt)
  {
    if step.Submit? {
      NewRowSubmitted(cfg, s, step.sub, step.req, id);
      hide ApplySubmit, SubmitEnabled;
    } else {
      OtherStep(cfg, s, step);
      hide ApplyWork, WorkEnabled;
    }
  }

  lemma NewRowSubmitted(cfg: Config, s: State, sub: nat, req: SubmitAction, id: string)
    requires SubmitEnabled(cfg, s, sub, req) && id in ApplySubmit(cfg, s, sub, req).rows && id !in s.rows
    ensures req.Insert? && sub in s.submitters && s.submitters[sub].Inserting?
    ensures var x, row := s.submitters[sub], ApplySubmit(cfg, s, sub, req).rows[id];
            x.id == id && IsNewJob(row, x.accountID, req.payload, x.key, x.createdAt)
  {
    hide KeyFree, HasKey, Conflicts;
  }

  /** In every reachable state each row carries the account and the key that its submission
      began with, the clock at its planning, and the message of the insert that wrote it. */
  lemma {:induction false} RowsAreWhatWasSubmitted(cfg: Config, steps: seq<Step>, states: seq<State>, i: nat,
                                                   id: string)
    returns (b: nat, p: nat, k: nat, sub: nat)
    requires IsRun(cfg, steps, states) && i < |states| && id in states[i].rows
    ensures k < i && WrittenAt(steps, states, b, p, k, sub, id, states[i].rows[id])
  {
    hide Apply, Enabled;
    assert i > 0;
    var s, step := states[i - 1], steps[i - 1];
    if id in s.rows {
      b, p, k, sub := RowsAreWhatWasSubmitted(cfg, steps, states, i - 1, id);
      KeptStep(cfg, s, step);
      assert Same(s.rows[id], states[i].rows[id]);
    } else {
      NewRowStep(cfg, s, step, id);
      k, sub := i - 1, step.sub;
      b, p := InsertionPlanned(cfg, steps, states, i - 1, sub);
    }
  }
}
