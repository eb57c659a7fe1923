/** Runs of the outbound protocol without faults or crashes, put together from whole moves:
    startup, a submission, waiting, a claim, a failed attempt, the rest of a pass. */
module OutboundCalmRun {
  import opened Backoff
  import opened Events
  import opened QueueStore
  import opened Outbound

  // # Runs without faults or crashes

  predicate Calm(step: Step) {
    match step
    case Work(_, act) =>
      (match act
       case PullFails(_) => false
       case PullPanics(_) => false
       case SendPanics => false
       case Acknowledge(fault) => fault == NoFault
       case Fail(_, fault) => fault == NoFault
       case _ => true)
    case Submit(_, req) => req.Insert? ==> req.fault == NoFault
    case Restart => true
    case Tick(_) => true
    case _ => false
  }

  ghost predicate CalmPath(cfg: Config, s: State, steps: seq<Step>, s': State) {
    Path(cfg, s, steps, s') && forall i :: 0 <= i < |steps| ==> Calm(steps[i])
  }

  /** Some calm run from this instant leads here. */
  ghost predicate Reached(cfg: Config, start: nat, s: State) {
    exists steps :: CalmPath(cfg, Init(start), steps, s)
  }

  lemma ReachedAtOnce(cfg: Config, start: nat)
    ensures Reached(cfg, start, Init(start))
  {
    assert CalmPath(cfg, Init(start), [], Init(start));
  }

  /** One more step. */
  lemma Then(cfg: Config, start: nat, s: State, step: Step)
    requires Reached(cfg, start, s) && Enabled(cfg, s, step) && Calm(step)
    ensures Reached(cfg, start, Apply(cfg, s, step))
  {
    hide Enabled, Apply, Calm, Path;
    var steps :| CalmPath(cfg, Init(start), steps, s);
    OneStep(cfg, s, step);
    PathConcat(cfg, Init(start), steps, s, [step], Apply(cfg, s, step));
    assert CalmPath(cfg, Init(start), steps + [step], Apply(cfg, s, step));
  }

  lemma RunGoesOn(cfg: Config, steps: seq<Step>, states: seq<State>, step: Step)
    requires IsRun(cfg, steps, states) && Enabled(cfg, states[|steps|], step)
    ensures IsRun(cfg, steps + [step], states + [Apply(cfg, states[|steps|], step)])
  {
    hide Enabled, Apply;
    var steps', states' := steps + [step], states + [Apply(cfg, states[|steps|], step)];
    forall i: nat | i < |steps'|
      ensures Enabled(cfg, states'[i], steps'[i]) && states'[i + 1] == Apply(cfg, states'[i], steps'[i])
    {
      assert i < |steps| ==> steps'[i] == steps[i];
    }
  }

  lemma {:induction false} RunAlong(cfg: Config, steps: seq<Step>, states: seq<State>, more: seq<Step>, s': State)
    returns (states': seq<State>)
    requires IsRun(cfg, steps, states) && Path(cfg, states[|steps|], more, s')
    ensures IsRun(cfg, steps + more, states') && states'[|steps + more|] == s' && states <= states'
    decreases |more|
  {
    hide Enabled, Apply;
    if more == [] {
      states' := states;
      assert steps + more == steps;
    } else {
      RunGoesOn(cfg, steps, states, more[0]);
      var steps1, states1 := steps + [more[0]], states + [Apply(cfg, states[|steps|], more[0])];
      assert |states| == |steps| + 1;
      assert steps1 + more[1..] == steps + more;
      hide IsRun;
      states' := RunAlong(cfg, steps1, states1, more[1..], s');
    }
  }

  /** A run to a state that is reached, and one step on. */
  lemma RunPast(cfg: Config, start: nat, s: State, step: Step) returns (steps: seq<Step>, states: seq<State>)
    requires start >= MILLISECOND && Reached(cfg, start, s) && Enabled(cfg, s, step) && Calm(step)
    ensures IsRun(cfg, steps, states) && states[0] == Init(start) && steps != []
    ensures steps[|steps| - 1] == step && states[|steps| - 1] == s
    ensures forall i :: 0 <= i < |steps| ==> Calm(steps[i])
  {
    hide Enabled, Apply, Calm, Path;
    var more :| CalmPath(cfg, Init(start), more, s);
    assert IsRun(cfg, [], [Init(start)]);
    var before := RunAlong(cfg, [], [Init(start)], more, s);
    assert [] + more == more;
    OneStep(cfg, s, step);
    states := RunAlong(cfg, more, before, [step], Apply(cfg, s, step));
    steps := more + [step];
  }

  // # Moves of the first worker and of one submitter

  /** Only the first worker has moved, no submission is under way, and "new" is unclaimed. */
  predicate Stands(cfg: Config, s: State, clock: nat, x: Worker, rows: Table) {
    && s.up && |s.workers| == cfg.concurrency && cfg.concurrency > 0 && s.workers[0] == x
    && s.submitters == map[] && s.rows == rows && s.clock == clock && "new" !in s.pulls
  }

  function Job(cfg: Config, retryCount: nat, scheduledAt: int, createdAt: int): Row
    requires cfg.accounts != []
  {
    Row(cfg.accounts[0], "", Queued, retryCount, scheduledAt, "", createdAt)
  }

  /** Every row is of the first account. */
  ghost predicate OneAccount(cfg: Config, rows: Table)
    requires cfg.accounts != []
  {
    forall id :: id in rows ==> rows[id].accountID == cfg.accounts[0]
  }

  lemma Startup(cfg: Config, start: nat) returns (s: State)
    requires cfg.concurrency > 0
    ensures Reached(cfg, start, s) && Stands(cfg, s, start, Scanning(0, false), map[])
  {
    ReachedAtOnce(cfg, start);
    s := Apply(cfg, Init(start), Restart);
    Then(cfg, start, Init(start), Restart);
    assert Restore(map[]) == map[];
    hide Reached;
  }

  /** Time passes. */
  lemma Wait(cfg: Config, start: nat, s: State, clock: nat, until: nat, x: Worker, rows: Table) returns (s': State)
    requires Reached(cfg, start, s) && Stands(cfg, s, clock, x, rows) && clock <= until
    ensures Reached(cfg, start, s') && Stands(cfg, s', until, x, rows)
  {
    hide Reached;
    s' := Apply(cfg, s, Tick(until - clock));
    Then(cfg, start, s, Tick(until - clock));
  }

  /** A submission from its first step to its last. */
  lemma SubmitJob(cfg: Config, start: nat, s: State, clock: nat, id: string, x: Worker, rows: Table)
    returns (s': State)
    requires cfg.accounts != [] && Reached(cfg, start, s) && Stands(cfg, s, clock, x, rows) && id !in rows
    ensures Reached(cfg, start, s') && Stands(cfg, s', clock, x, rows[id := Job(cfg, 0, 0, UnixMilli(clock))])
  {
    hide Reached, ApplyWork, WorkEnabled;
    var a := cfg.accounts[0];
    var s1 := SetSubmitter(s, 0, Checking(a, ""));
    Then(cfg, start, s, Submit(0, Begin(a, "")));
    var s2 := SetSubmitter(s1, 0, Resolving(a, ""));
    assert s2 == Apply(cfg, s1, Submit(0, FindNothing));
    Then(cfg, start, s1, Submit(0, FindNothing));
    var s3 := SetSubmitter(s2, 0, Enqueuing(a, ""));
    assert s3 == Apply(cfg, s2, Submit(0, Resolve));
    Then(cfg, start, s2, Submit(0, Resolve));
    s' := FinishSubmit(cfg, start, s3, clock, id, x, rows);
  }

  lemma FinishSubmit(cfg: Config, start: nat, s: State, clock: nat, id: string, x: Worker, rows: Table)
    returns (s': State)
    requires cfg.accounts != [] && Reached(cfg, start, s) && id !in rows
    requires s.submitters == map[0 := Enqueuing(cfg.accounts[0], "")]
    requires Stands(cfg, s.(submitters := map[]), clock, x, rows)
    ensures Reached(cfg, start, s') && Stands(cfg, s', clock, x, rows[id := Job(cfg, 0, 0, UnixMilli(clock))])
  {
    hide Reached, ApplyWork, WorkEnabled, UnixMilli;
    var a, now := cfg.accounts[0], UnixMilli(clock);
    var s1 := Apply(cfg, s, Submit(0, Plan(id)));
    Then(cfg, start, s, Submit(0, Plan(id)));
    assert s1 == SetSubmitter(s, 0, Inserting(a, "", id, now));
    var s2 := Apply(cfg, s1, Submit(0, Insert("", NoFault)));
    Then(cfg, start, s1, Submit(0, Insert("", NoFault)));
    assert s2.rows == rows[id := Job(cfg, 0, 0, now)] && s2.submitters == map[0 := Inserted(a, "", id)];
    s' := Apply(cfg, s2, Submit(0, Notify));
    Then(cfg, start, s2, Submit(0, Notify));
  }

  /** The first worker claims the job "old" of the first account. */
  lemma ClaimOld(cfg: Config, start: nat, s: State, clock: nat, k: nat, worked: bool, rows: Table) returns (s': State)
    requires cfg.accounts != [] && Reached(cfg, start, s) && Stands(cfg, s, clock, Scanning(k, worked), rows)
    requires k < |cfg.accounts| && cfg.accounts[k] == cfg.accounts[0]
    requires IsNext(rows, cfg.accounts[0], UnixMilli(clock), "old")
    ensures Enabled(cfg, s, Work(0, Claim("old"))) && Reached(cfg, start, s')
    ensures Stands(cfg, s', clock, Holding(k, "old", rows["old"].retryCount), SetState(rows, "old", Sending))
  {
    hide Reached, IsNext, ApplySubmit, SubmitEnabled, UnixMilli;
    s' := Apply(cfg, s, Work(0, Claim("old")));
    Then(cfg, start, s, Work(0, Claim("old")));
  }

  /** Its delivery fails, with retries left. */
  lemma FailOld(cfg: Config, start: nat, s: State, clock: nat, k: nat, n: nat, rows: Table, o: Duration)
    returns (s': State)
    requires cfg.accounts != [] && Reached(cfg, start, s) && Stands(cfg, s, clock, Holding(k, "old", n), rows)
    requires "old" in rows && n + 1 <= cfg.policy.maxRetries
    ensures Reached(cfg, start, s')
    ensures Stands(cfg, s', clock, Reporting(k),
                   Reschedule(rows, "old", n + 1, UnixMilli(NextScheduledAt(cfg.policy, n + 1, clock, o))))
  {
    hide Reached, ApplySubmit, SubmitEnabled, NextScheduledAt, UnixMilli;
    s' := Apply(cfg, s, Work(0, Fail(o, NoFault)));
    Then(cfg, start, s, Work(0, Fail(o, NoFault)));
  }

  lemma ReportOld(cfg: Config, start: nat, s: State, clock: nat, k: nat, rows: Table) returns (s': State)
    requires Reached(cfg, start, s) && Stands(cfg, s, clock, Reporting(k), rows)
    ensures Reached(cfg, start, s') && Stands(cfg, s', clock, Scanning(k + 1, true), rows)
  {
    hide Reached, ApplySubmit, SubmitEnabled;
    s' := Apply(cfg, s, Work(0, Report));
    Then(cfg, start, s, Work(0, Report));
  }

  lemma NextPass(cfg: Config, start: nat, s: State, clock: nat, rows: Table) returns (s': State)
    requires Reached(cfg, start, s) && Stands(cfg, s, clock, Scanning(|cfg.accounts|, true), rows)
    ensures Reached(cfg, start, s') && Stands(cfg, s', clock, Scanning(0, false), rows)
  {
    hide Reached, ApplySubmit, SubmitEnabled;
    s' := Apply(cfg, s, Work(0, EndPass));
    Then(cfg, start, s, Work(0, EndPass));
  }

  /** The worker passes an account that has no jobs. */
  lemma SkipOne(cfg: Config, start: nat, s: State, clock: nat, k: nat, rows: Table) returns (s': State)
    requires k < |cfg.accounts| && cfg.accounts[k] != cfg.accounts[0] && OneAccount(cfg, rows)
    requires Reached(cfg, start, s) && Stands(cfg, s, clock, Scanning(k, true), rows)
    ensures Reached(cfg, start, s') && Stands(cfg, s', clock, Scanning(k + 1, true), rows)
  {
    assert NothingEligible(rows, cfg.accounts[k], UnixMilli(clock));
    hide Reached, ApplySubmit, SubmitEnabled, NothingEligible;
    s' := Apply(cfg, s, Work(0, NothingToPull));
    Then(cfg, start, s, Work(0, NothingToPull));
  }

  /** From account k on the worker comes to the next place of the first account, in this pass
      or at the head of the next. */
  lemma {:induction false} ComeAgain(cfg: Config, start: nat, s: State, clock: nat, k: nat, rows: Table)
    returns (s': State, k': nat, worked: bool)
    requires cfg.accounts != [] && k <= |cfg.accounts| && OneAccount(cfg, rows)
    requires Reached(cfg, start, s) && Stands(cfg, s, clock, Scanning(k, true), rows)
    ensures k' < |cfg.accounts| && cfg.accounts[k'] == cfg.accounts[0]
    ensures Reached(cfg, start, s') && Stands(cfg, s', clock, Scanning(k', worked), rows)
    decreases |cfg.accounts| - k
  {
    hide Reached, Stands, OneAccount;
    if k == |cfg.accounts| {
      s' := NextPass(cfg, start, s, clock, rows);
      k', worked := 0, false;
    } else if cfg.accounts[k] == cfg.accounts[0] {
      s', k', worked := s, k, true;
    } else {
      var s1 := SkipOne(cfg, start, s, clock, k, rows);
      s', k', worked := ComeAgain(cfg, start, s1, clock, k + 1, rows);
    }
  }

  /** One failed attempt on the only job: its next retry is scheduled. */
  lemma Attempt(cfg: Config, start: nat, s: State, clock: nat, k: nat, worked: bool, n: nat, at: int, born: int,
                o: Duration)
    returns (s': State)
    requires cfg.accounts != [] && n + 1 <= cfg.policy.maxRetries && at <= UnixMilli(clock)
    requires k < |cfg.accounts| && cfg.accounts[k] == cfg.accounts[0]
    requires Reached(cfg, start, s)
    requires Stands(cfg, s, clock, Scanning(k, worked), map["old" := Job(cfg, n, at, born)])
    ensures Reached(cfg, start, s')
    ensures var next := UnixMilli(NextScheduledAt(cfg.policy, n + 1, clock, o));
            Stands(cfg, s', clock, Reporting(k), map["old" := Job(cfg, n + 1, next, born)])
  {
    var rows: Table := map["old" := Job(cfg, n, at, born)];
    assert IsNext(rows, cfg.accounts[0], UnixMilli(clock), "old");
    hide Reached, Stands, IsNext, NextScheduledAt, UnixMilli;
    var s1 := ClaimOld(cfg, start, s, clock, k, worked, rows);
    s' := FailOld(cfg, start, s1, clock, k, n, SetState(rows, "old", Sending), o);
    var next := UnixMilli(NextScheduledAt(cfg.policy, n + 1, clock, o));
    assert Reschedule(SetState(rows, "old", Sending), "old", n + 1, next) == map["old" := Job(cfg, n + 1, next, born)];
  }
}
