/** When can a retried job be claimed while a job of its account was never claimed? Exactly
    when some retry of the policy, after the waits that come before it, is scheduled back at
    the epoch: from any such policy a run without faults or crashes is constructed that does
    it. */
module OutboundOvertaking {
  import opened Wrappers
  import opened Backoff
  import opened RetryTimes
  import opened Events
  import opened QueueStore
  import opened Outbound
  import opened OutboundOwnership
  import opened OutboundAccounting
  import opened OutboundCalmRun

  /** Step i claims a retried job past a never-claimed one of its account. */
  ghost predicate OvertakesAt(cfg: Config, steps: seq<Step>, states: seq<State>, i: nat) {
    && i < |steps| && i < |states| && steps[i].Work? && Claimed(steps[i].act).Some?
    && var s, id := states[i], Claimed(steps[i].act).value;
       && id in s.rows && s.rows[id].retryCount > 0
       && exists other ::
            other in s.rows && s.rows[other].accountID == s.rows[id].accountID && Count(s.pulls, other) == 0
  }

  ghost predicate RunFrom(cfg: Config, steps: seq<Step>, states: seq<State>, start: nat) {
    IsRun(cfg, steps, states) && states[0].clock == start
  }

  // # No row is ahead of the earliest instants

  /** A row with n retries got its schedule no earlier than the attempt before can end, and is
      being sent no earlier than it can be due. */
  predicate RowTimely(policy: RetryPolicy, start: nat, row: Row, clock: nat) {
    && (row.retryCount > 0 ==>
          var before := Earliest(policy, start, row.retryCount - 1);
          before <= clock && UnixMilli(before + Lowest(policy, row.retryCount)) <= row.scheduledAt)
    && (row.state == Sending ==> Earliest(policy, start, row.retryCount) <= clock)
  }

  ghost predicate Timely(cfg: Config, start: nat, s: State) {
    start <= s.clock && forall id :: id in s.rows ==> RowTimely(cfg.policy, start, s.rows[id], s.clock)
  }

  lemma ClaimIsTimely(policy: RetryPolicy, start: nat, row: Row, clock: nat)
    requires RowTimely(policy, start, row, clock) && start <= clock && row.scheduledAt <= UnixMilli(clock)
    ensures RowTimely(policy, start, row.(state := Sending), clock)
  {
    hide Lowest;
  }

  lemma SettledIsTimely(policy: RetryPolicy, start: nat, row: Row, act: WorkerAction, clock: nat)
    requires RowTimely(policy, start, row, clock) && row.state == Sending && Settles(act)
    ensures RowTimely(policy, start, Settle(policy, row, act, clock), clock)
  {
    hide Lowest, Delay, UnixMilli, Earliest;
    var n := row.retryCount + 1;
    if act.Fail? {
      LowestIsLeast(policy, n, act.o);
      DueAtMonotone(Earliest(policy, start, n - 1) + Lowest(policy, n), NextScheduledAt(policy, n, clock, act.o));
    }
  }

  /** What is claimed is due. */
  lemma ClaimedIsDue(cfg: Config, s: State, w: nat, act: WorkerAction)
    requires WorkEnabled(cfg, s, w, act) && Claimed(act).Some?
    ensures Claimed(act).value in s.rows && s.rows[Claimed(act).value].scheduledAt <= UnixMilli(s.clock)
  {
  }

  lemma TimelyWork(cfg: Config, s: State, w: nat, act: WorkerAction, start: nat)
    requires Owned(s) && Timely(cfg, start, s) && WorkEnabled(cfg, s, w, act)
    ensures Timely(cfg, start, ApplyWork(cfg, s, w, act))
  {
    var id := WorkKinds(cfg, s, w, act);
    WorkFrame(cfg, s, w, act);
    hide Owned, ApplyWork, WorkEnabled, RowTimely, Settle;
    if Claimed(act).Some? {
      ClaimedIsDue(cfg, s, w, act);
      var row := s.rows[Claimed(act).value];
      ClaimIsTimely(cfg.policy, start, row, s.clock);
    } else if Settles(act) {
      SettledIsTimely(cfg.policy, start, s.rows[id], act, s.clock);
    }
  }

  lemma TimelyElsewhere(cfg: Config, s: State, step: Step, start: nat)
    requires Timely(cfg, start, s) && Enabled(cfg, s, step) && !step.Work?
    ensures Timely(cfg, start, Apply(cfg, s, step))
  {
    hide Lowest, Earliest;
    match step
    case Submit(sub, req) =>
      SubmitFrame(cfg, s, sub, req);
      InsertedIsFresh(cfg, s, sub, req);
      hide ApplySubmit, SubmitEnabled, Kept;
    case _ =>
  }

  lemma InsertedIsFresh(cfg: Config, s: State, sub: nat, req: SubmitAction)
    requires SubmitEnabled(cfg, s, sub, req)
    ensures var rows := ApplySubmit(cfg, s, sub, req).rows;
            forall id :: id in rows ==> (id in s.rows && rows[id] == s.rows[id])
                                        || (rows[id].retryCount == 0 && rows[id].state == Queued)
  {
    hide KeyFree, HasKey, Conflicts;
  }

  lemma {:induction false} TimelyAlways(cfg: Config, steps: seq<Step>, states: seq<State>, i: nat, start: nat)
    requires RunFrom(cfg, steps, states, start) && i < |states|
    ensures Timely(cfg, start, states[i])
  {
    hide Apply, Enabled, Owned, RowTimely;
    if i > 0 {
      TimelyAlways(cfg, steps, states, i - 1, start);
      OwnedAlways(cfg, steps, states, i - 1);
      hide Timely;
      var s, step := states[i - 1], steps[i - 1];
      TimelyStep(cfg, s, step, start);
    }
  }

  lemma TimelyStep(cfg: Config, s: State, step: Step, start: nat)
    requires Owned(s) && Timely(cfg, start, s) && Enabled(cfg, s, step)
    ensures Timely(cfg, start, Apply(cfg, s, step))
  {
    hide Timely, Owned, ApplyWork, ApplySubmit;
    if step.Work? {
      TimelyWork(cfg, s, step.w, step.act, start);
    } else {
      TimelyElsewhere(cfg, s, step, start);
    }
  }

  lemma RetryIsScheduled(policy: RetryPolicy, start: nat, row: Row, clock: nat)
    requires RowTimely(policy, start, row, clock) && 1 <= row.retryCount <= policy.maxRetries
    requires !ReachesBack(policy, start)
    ensures row.scheduledAt > 0
  {
    assert !RetryReachesBack(policy, start, row.retryCount);
    hide Earliest, Lowest;
  }

  /** If no retry reaches back, nothing is ever overtaken, across restarts. */
  lemma NothingOvertakes(cfg: Config, steps: seq<Step>, states: seq<State>, i: nat, start: nat)
    requires RunFrom(cfg, steps, states, start) && !ReachesBack(cfg.policy, start)
    ensures !OvertakesAt(cfg, steps, states, i)
  {
    if OvertakesAt(cfg, steps, states, i) {
      var s, id := states[i], Claimed(steps[i].act).value;
      var other :| other in s.rows && s.rows[other].accountID == s.rows[id].accountID && Count(s.pulls, other) == 0;
      FirstClaimOrder(cfg, steps, states, i, id, other);
      AttemptsAreAccounted(cfg, steps, states, i, id);
      TimelyAlways(cfg, steps, states, i, start);
      RetryIsScheduled(cfg.policy, start, s.rows[id], s.clock);
    }
  }

  // # The constructed run

  /** Up to the m-th retry, when it is due. */
  lemma {:induction false} Climb(cfg: Config, start: nat, m: nat)
    returns (s: State, k: nat, worked: bool, at: int)
    requires cfg.accounts != [] && cfg.concurrency > 0 && m <= cfg.policy.maxRetries
    ensures k < |cfg.accounts| && cfg.accounts[k] == cfg.accounts[0] && Reached(cfg, start, s)
    ensures var clock := Earliest(cfg.policy, start, m);
            && clock >= start && at <= UnixMilli(clock)
            && Stands(cfg, s, clock, Scanning(k, worked), map["old" := Job(cfg, m, at, UnixMilli(start))])
  {
    hide Reached, Stands, NextScheduledAt, OneAccount;
    if m == 0 {
      var s0 := Startup(cfg, start);
      s := SubmitJob(cfg, start, s0, start, "old", Scanning(0, false), map[]);
      k, worked, at := 0, false, 0;
    } else {
      var s1, k1, worked1, at1 := Climb(cfg, start, m - 1);
      s, k, worked, at := Round(cfg, start, s1, k1, worked1, m, at1);
    }
  }

  lemma DueAtEarliest(policy: RetryPolicy, start: nat, m: nat)
    requires m >= 1
    ensures var before, clock := Earliest(policy, start, m - 1), Earliest(policy, start, m);
            before <= clock && UnixMilli(before + Lowest(policy, m)) <= UnixMilli(clock)
  {
    var before := Earliest(policy, start, m - 1);
    var due := UnixMilli(before + Lowest(policy, m));
    DueAtWhole(before, due);
    DueAtMonotone(due * MILLISECOND, Earliest(policy, start, m));
    hide Lowest;
  }

  /** The attempt after n - 1 retries fails, and the n-th gets its least delay. */
  lemma LeastDelay(cfg: Config, start: nat, s: State, k: nat, worked: bool, n: nat, at: int) returns (s': State)
    requires cfg.accounts != [] && 1 <= n <= cfg.policy.maxRetries
    requires k < |cfg.accounts| && cfg.accounts[k] == cfg.accounts[0] && Reached(cfg, start, s)
    requires var clock := Earliest(cfg.policy, start, n - 1);
             && clock >= start && at <= UnixMilli(clock)
             && Stands(cfg, s, clock, Scanning(k, worked), map["old" := Job(cfg, n - 1, at, UnixMilli(start))])
    ensures Reached(cfg, start, s')
    ensures var clock := Earliest(cfg.policy, start, n - 1);
            var next := UnixMilli(clock + Lowest(cfg.policy, n));
            Stands(cfg, s', clock, Reporting(k), map["old" := Job(cfg, n, next, UnixMilli(start))])
  {
    hide Reached, Stands, Earliest, Delay, UnixMilli;
    var clock := Earliest(cfg.policy, start, n - 1);
    s' := Attempt(cfg, start, s, clock, k, worked, n - 1, at, UnixMilli(start), MIN_INT64);
  }

  /** The attempt after m - 1 retries fails, and the worker waits for the m-th. */
  lemma Round(cfg: Config, start: nat, s: State, k: nat, worked: bool, m: nat, at: int)
    returns (s': State, k': nat, worked': bool, at': int)
    requires cfg.accounts != [] && 1 <= m <= cfg.policy.maxRetries
    requires k < |cfg.accounts| && cfg.accounts[k] == cfg.accounts[0] && Reached(cfg, start, s)
    requires var clock := Earliest(cfg.policy, start, m - 1);
             && clock >= start && at <= UnixMilli(clock)
             && Stands(cfg, s, clock, Scanning(k, worked), map["old" := Job(cfg, m - 1, at, UnixMilli(start))])
    ensures k' < |cfg.accounts| && cfg.accounts[k'] == cfg.accounts[0] && Reached(cfg, start, s')
    ensures var clock := Earliest(cfg.policy, start, m);
            && clock >= start && at' <= UnixMilli(clock)
            && Stands(cfg, s', clock, Scanning(k', worked'), map["old" := Job(cfg, m, at', UnixMilli(start))])
  {
    DueAtEarliest(cfg.policy, start, m);
    hide Reached, Stands, Earliest, Lowest, UnixMilli;
    var before, clock := Earliest(cfg.policy, start, m - 1), Earliest(cfg.policy, start, m);
    at' := UnixMilli(before + Lowest(cfg.policy, m));
    var rows: Table := map["old" := Job(cfg, m, at', UnixMilli(start))];
    assert OneAccount(cfg, rows);
    hide OneAccount;
    var s1 := LeastDelay(cfg, start, s, k, worked, m, at);
    s', k', worked' := Await(cfg, start, s1, before, clock, k, rows);
  }

  /** The worker reports, comes back to the account, and waits there. */
  lemma Await(cfg: Config, start: nat, s: State, clock: nat, until: nat, k: nat, rows: Table)
    returns (s': State, k': nat, worked: bool)
    requires cfg.accounts != [] && k < |cfg.accounts| && OneAccount(cfg, rows) && clock <= until
    requires Reached(cfg, start, s) && Stands(cfg, s, clock, Reporting(k), rows)
    ensures k' < |cfg.accounts| && cfg.accounts[k'] == cfg.accounts[0] && Reached(cfg, start, s')
    ensures Stands(cfg, s', until, Scanning(k', worked), rows)
  {
    hide Reached, Stands, OneAccount;
    var s1 := ReportOld(cfg, start, s, clock, k, rows);
    var s2;
    s2, k', worked := ComeAgain(cfg, start, s1, clock, k + 1, rows);
    s' := Wait(cfg, start, s2, clock, until, Scanning(k', worked), rows);
  }

  function TwoJobs(cfg: Config, n: nat, at: int, born: int, now: int): Table
    requires cfg.accounts != []
  {
    map["old" := Job(cfg, n, at, born), "new" := Job(cfg, 0, 0, now)]
  }

  lemma OldFirst(cfg: Config, n: nat, at: int, born: int, now: int)
    requires cfg.accounts != [] && at <= 0 && born <= now && now >= 0
    ensures IsNext(TwoJobs(cfg, n, at, born, now), cfg.accounts[0], now, "old")
  {
  }

  lemma BackAtTheEpoch(policy: RetryPolicy, start: nat, n: nat)
    requires n >= 1 && RetryReachesBack(policy, start, n)
    ensures var clock := Earliest(policy, start, n - 1);
            && UnixMilli(clock + Lowest(policy, n)) <= 0
            && clock >= start && 0 <= UnixMilli(start) <= UnixMilli(clock)
  {
    EarliestGrows(policy, start, 0, n - 1);
    DueAtMonotone(start, Earliest(policy, start, n - 1));
    hide Lowest;
  }

  /** The n-th retry is scheduled back at the epoch, a new job is submitted, and the worker
      comes to the account again. */
  lemma Meet(cfg: Config, start: nat, n: nat) returns (s: State, k: nat, worked: bool, at: int)
    requires cfg.accounts != [] && cfg.concurrency > 0
    requires 1 <= n <= cfg.policy.maxRetries && RetryReachesBack(cfg.policy, start, n)
    ensures k < |cfg.accounts| && cfg.accounts[k] == cfg.accounts[0] && at <= 0 && Reached(cfg, start, s)
    ensures var clock := Earliest(cfg.policy, start, n - 1);
            && clock >= start
            && Stands(cfg, s, clock, Scanning(k, worked), TwoJobs(cfg, n, at, UnixMilli(start), UnixMilli(clock)))
  {
    BackAtTheEpoch(cfg.policy, start, n);
    hide Reached, Stands, OneAccount, Earliest, Lowest, UnixMilli, RetryReachesBack, IsNext, Delay;
    var s1, k1, worked1, at1 := Climb(cfg, start, n - 1);
    var clock := Earliest(cfg.policy, start, n - 1);
    at := UnixMilli(clock + Lowest(cfg.policy, n));
    var s2 := LeastDelay(cfg, start, s1, k1, worked1, n, at1);
    s, k, worked := NewJob(cfg, start, s2, clock, k1, n, at);
  }

  /** While it reports, a new job is submitted. */
  lemma NewJob(cfg: Config, start: nat, s: State, clock: nat, k: nat, n: nat, at: int)
    returns (s': State, k': nat, worked: bool)
    requires cfg.accounts != [] && k < |cfg.accounts| && at <= 0 && start <= clock && Reached(cfg, start, s)
    requires Stands(cfg, s, clock, Reporting(k), map["old" := Job(cfg, n, at, UnixMilli(start))])
    ensures k' < |cfg.accounts| && cfg.accounts[k'] == cfg.accounts[0] && Reached(cfg, start, s')
    ensures Stands(cfg, s', clock, Scanning(k', worked), TwoJobs(cfg, n, at, UnixMilli(start), UnixMilli(clock)))
  {
    hide Reached, Stands, UnixMilli;
    var rows: Table := map["old" := Job(cfg, n, at, UnixMilli(start))];
    var both := TwoJobs(cfg, n, at, UnixMilli(start), UnixMilli(clock));
    assert OneAccount(cfg, both) && rows["new" := Job(cfg, 0, 0, UnixMilli(clock))] == both;
    hide OneAccount, TwoJobs;
    var s1 := SubmitJob(cfg, start, s, clock, "new", Reporting(k), rows);
    var s2 := ReportOld(cfg, start, s1, clock, k, both);
    s', k', worked := ComeAgain(cfg, start, s2, clock, k + 1, both);
  }

  /** A run without faults or crashes that ends with the retried job claimed first, as early
      as that retry can come about. */
  lemma OvertakingRun(cfg: Config, start: nat, n: nat) returns (steps: seq<Step>, states: seq<State>)
    requires cfg.accounts != [] && cfg.concurrency > 0 && start >= MILLISECOND
    requires 1 <= n <= cfg.policy.maxRetries && RetryReachesBack(cfg.policy, start, n)
    ensures RunFrom(cfg, steps, states, start) && steps != [] && OvertakesAt(cfg, steps, states, |steps| - 1)
    ensures states[|steps| - 1].clock == Earliest(cfg.policy, start, n - 1)
    ensures forall i :: 0 <= i < |steps| ==> Calm(steps[i])
  {
    var clock := Earliest(cfg.policy, start, n - 1);
    var s, k, worked, at := Meet(cfg, start, n);
    DueAtMonotone(start, clock);
    OldFirst(cfg, n, at, UnixMilli(start), UnixMilli(clock));
    var both := TwoJobs(cfg, n, at, UnixMilli(start), UnixMilli(clock));
    var _ := ClaimOld(cfg, start, s, clock, k, worked, both);
    assert both["new"].accountID == both["old"].accountID && both["old"].retryCount > 0;
    assert Count(s.pulls, "new") == 0 && s.rows == both && s.clock == clock;
    hide Enabled, Apply, Stands, Reached, Calm, Count, TwoJobs, RetryReachesBack, IsNext, Earliest, UnixMilli;
    ClaimIsCalm();
    steps, states := RunPast(cfg, start, s, Work(0, Claim("old")));
    assert OvertakesAt(cfg, steps, states, |steps| - 1);
  }

  lemma ClaimIsCalm()
    ensures Calm(Work(0, Claim("old")))
  {
  }

  // # The exact condition

  ghost predicate CanOvertake(cfg: Config, start: nat) {
    exists steps, states, i :: RunFrom(cfg, steps, states, start) && OvertakesAt(cfg, steps, states, i)
  }

  /** In some run from an instant on, a retried job is claimed while a job of its account was
      never claimed, if and only if there is a worker and an account to serve, and some retry,
      after the least waits before it, can be scheduled back at the epoch. */
  lemma OvertakesFromIff(cfg: Config, start: nat)
    requires start >= MILLISECOND
    ensures CanOvertake(cfg, start) <==> cfg.accounts != [] && cfg.concurrency > 0 && ReachesBack(cfg.policy, start)
  {
    hide RetryReachesBack, RunFrom, OvertakesAt;
    if cfg.accounts != [] && cfg.concurrency > 0 && ReachesBack(cfg.policy, start) {
      var n :| 1 <= n <= cfg.policy.maxRetries && RetryReachesBack(cfg.policy, start, n);
      var steps, states := OvertakingRun(cfg, start, n);
    } else {
      forall steps, states, i | RunFrom(cfg, steps, states, start) ensures !OvertakesAt(cfg, steps, states, i) {
        if ReachesBack(cfg.policy, start) {
          IdleClaimsNothing(cfg, steps, states, i, start);
        } else {
          NothingOvertakes(cfg, steps, states, i, start);
        }
      }
    }
  }

  /** Without workers or accounts nothing is claimed at all. */
  lemma IdleClaimsNothing(cfg: Config, steps: seq<Step>, states: seq<State>, i: nat, start: nat)
    requires RunFrom(cfg, steps, states, start) && (cfg.accounts == [] || cfg.concurrency == 0)
    ensures !OvertakesAt(cfg, steps, states, i)
  {
    if i < |steps| && i < |states| {
      NoWorkers(cfg, steps, states, i);
      ClaimNeedsWorker(cfg, states[i], steps[i]);
    }
  }

  lemma ClaimNeedsWorker(cfg: Config, s: State, step: Step)
    requires Enabled(cfg, s, step)
    ensures step.Work? && Claimed(step.act).Some? ==> s.workers != [] && cfg.accounts != []
  {
  }

  lemma {:induction false} NoWorkers(cfg: Config, steps: seq<Step>, states: seq<State>, i: nat)
    requires IsRun(cfg, steps, states) && i < |states|
    ensures |states[i].workers| <= cfg.concurrency
  {
    hide Apply, Enabled;
    if i > 0 {
      NoWorkers(cfg, steps, states, i - 1);
      WorkersStep(cfg, states[i - 1], steps[i - 1]);
    }
  }

  lemma WorkersStep(cfg: Config, s: State, step: Step)
    requires Enabled(cfg, s, step) && |s.workers| <= cfg.concurrency
    ensures |Apply(cfg, s, step).workers| <= cfg.concurrency
  {
    hide ApplyWork, ApplySubmit, WorkEnabled, SubmitEnabled;
    match step
    case Work(w, act) => WorkFrame(cfg, s, w, act);
    case Submit(sub, req) => SubmitFrame(cfg, s, sub, req); hide Kept;
    case _ =>
  }

  /** Over all runs, whenever they start: a later start only leaves further to reach back, so
      the earliest one decides. */
  lemma RetryOvertakesIff(cfg: Config)
    ensures (exists steps, states, i :: IsRun(cfg, steps, states) && OvertakesAt(cfg, steps, states, i)) <==>
            cfg.accounts != [] && cfg.concurrency > 0 && ReachesBack(cfg.policy, MILLISECOND)
  {
    OvertakesFromIff(cfg, MILLISECOND);
    hide ReachesBack, OvertakesAt;
    if steps: seq<Step>, states: seq<State>, i: nat :|
        IsRun(cfg, steps, states) && OvertakesAt(cfg, steps, states, i)
    {
      var start := states[0].clock;
      assert RunFrom(cfg, steps, states, start);
      OvertakesFromIff(cfg, start);
      ReachesBackEarlier(cfg.policy, MILLISECOND, start);
    }
  }

  /** Under every other policy no retried job is ever claimed while its account has a job
      that was never claimed, across restarts. */
  lemma RetriesYieldToNewJobs(cfg: Config, steps: seq<Step>, states: seq<State>, i: nat, id: string, other: string)
    requires IsRun(cfg, steps, states) && !ReachesBack(cfg.policy, states[0].clock)
    requires i < |steps| && steps[i].Work? && Claimed(steps[i].act) == Some(id)
    requires other in states[i].rows && Count(states[i].pulls, other) == 0
    ensures id in states[i].rows
    ensures states[i].rows[id].retryCount > 0 ==> states[i].rows[other].accountID != states[i].rows[id].accountID
  {
    FirstClaimOrder(cfg, steps, states, i, id, other);
    NothingOvertakes(cfg, steps, states, i, states[0].clock);
    hide IsRun, ReachesBack;
    assert !OvertakesAt(cfg, steps, states, i);
  }

  /** It does happen: from any instant of the next two centuries, within 34 hours, under an
      exponential policy of one second capped at an hour with forty retries, on a platform
      that converts out of range as amd64 does. */
  lemma FortyRetriesOvertake(start: nat) returns (steps: seq<Step>, states: seq<State>)
    requires MILLISECOND <= start <= MAX_INT64 - 34 * 3_600_000_000_000
    ensures var cfg := Config(["bot"], RetryPolicy(40, false, 1_000_000_000, 3_600_000_000_000), 1);
            && RunFrom(cfg, steps, states, start) && steps != [] && OvertakesAt(cfg, steps, states, |steps| - 1)
            && states[|steps| - 1].clock <= start + 34 * 3_600_000_000_000
            && forall i :: 0 <= i < |steps| ==> Calm(steps[i])
  {
    var cfg := Config(["bot"], RetryPolicy(40, false, 1_000_000_000, 3_600_000_000_000), 1);
    FortyCappedRetries(start);
    hide RetryReachesBack, Earliest;
    steps, states := OvertakingRun(cfg, start, 35);
  }
}
