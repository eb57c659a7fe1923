/** The outbound queue as a transition system: N workers, any number of submitters, the
    wake-up channel, store faults, recovered panics, crashes and restarts, interleaved at
    the source's store and channel operations. One clock, in nanoseconds since the epoch,
    runs forward through all of it; a reading of it goes with the statement it is for. */
module Outbound {
  import opened Wrappers
  import opened Backoff
  import opened Events
  import opened QueueStore
  import opened Queue

  datatype Config = Config(accounts: seq<string>, policy: RetryPolicy, concurrency: nat)

  /** Where a worker goroutine stands in runWorker / processOne. */
  datatype Worker =
    | Scanning(next: nat, worked: bool)             // about to pull for accounts[next], or at the end of the pass
    | Holding(next: nat, job: string, retry: nat)   // has claimed job; retry is its copy of the retry count
    | Reporting(next: nat)                          // row written; publishing the outcome
    | Parked                                        // blocked in select

  /** Where a Submit call stands. */
  datatype Submitter =
    | Checking(accountID: string, key: string)
    | Resolving(accountID: string, key: string)
    | Enqueuing(accountID: string, key: string)
    | Inserting(accountID: string, key: string, id: string, createdAt: int)
    | Inserted(accountID: string, key: string, id: string)  // row written; wake-up not yet sent

  /** The daemon and its database, with the history the theorems speak about: how often
      each job was claimed and restored, which accounts are owed a poll after a store
      fault, and which calls returned which job. */
  datatype State = State(
    clock: nat,
    up: bool,
    rows: Table,
    notify: bool,
    workers: seq<Worker>,
    submitters: map<nat, Submitter>,
    pulls: map<string, nat>,
    interruptions: map<string, nat>,
    owed: set<string>,
    returned: set<(string, string, string)>)

  function Count(m: map<string, nat>, id: string): nat {
    if id in m then m[id] else 0
  }

  datatype WorkerAction =
    | Claim(id: string)
    | NothingToPull
    | PullFails(claimed: Option<string>)
    | PullPanics(claimed: Option<string>)
    | Acknowledge(fault: Fault)
    | Fail(o: Duration, fault: Fault)
    | SendPanics
    | Report
    | EndPass
    | WakeByNotify
    | WakeByTicker

  datatype SubmitAction =
    | Begin(accountID: string, key: string)
    | FindExisting(id: string)
    | FindNothing
    | Resolve
    | Plan(id: string)
    | Insert(payload: string, fault: Fault)
    | Notify
    | Abort

  datatype Step =
    | Work(w: nat, act: WorkerAction)
    | Submit(sub: nat, req: SubmitAction)
    | Crash
    | RestoreFails(fault: Fault)
    | Restart
    | Tick(ns: nat)

  function Init(clock: nat): State {
    State(clock, false, map[], false, [], map[], map[], map[], {}, {})
  }

  predicate KeyFree(t: Table, accountID: string, key: string) {
    key == "" || forall j :: j in t ==> !HasKey(t[j], accountID, key)
  }

  predicate ScansAccount(cfg: Config, s: State, w: nat) {
    s.up && w < |s.workers| && s.workers[w].Scanning? && s.workers[w].next < |cfg.accounts|
  }

  predicate Holds(s: State, w: nat) {
    s.up && w < |s.workers| && s.workers[w].Holding?
  }

  predicate MayClaim(cfg: Config, s: State, w: nat, claimed: Option<string>)
    requires ScansAccount(cfg, s, w)
  {
    claimed.Some? ==> IsNext(s.rows, cfg.accounts[s.workers[w].next], UnixMilli(s.clock), claimed.value)
  }

  predicate WorkEnabled(cfg: Config, s: State, w: nat, act: WorkerAction) {
    && s.up && w < |s.workers|
    && match act
       case Claim(id) => ScansAccount(cfg, s, w) && MayClaim(cfg, s, w, Some(id))
       case NothingToPull =>
         ScansAccount(cfg, s, w) && NothingEligible(s.rows, cfg.accounts[s.workers[w].next], UnixMilli(s.clock))
       case PullFails(claimed) => ScansAccount(cfg, s, w) && MayClaim(cfg, s, w, claimed)
       case PullPanics(claimed) => ScansAccount(cfg, s, w) && MayClaim(cfg, s, w, claimed)
       case Acknowledge(_) => Holds(s, w)
       case Fail(_, _) => Holds(s, w)
       case SendPanics => Holds(s, w)
       case Report => s.workers[w].Reporting?
       case EndPass => s.workers[w].Scanning? && s.workers[w].next >= |cfg.accounts|
       case WakeByNotify => s.workers[w].Parked? && s.notify
       case WakeByTicker => s.workers[w].Parked?
  }

  predicate SubmitEnabled(cfg: Config, s: State, sub: nat, req: SubmitAction) {
    && s.up
    && (req.Begin? <==> sub !in s.submitters)
    && match req
       case Begin(accountID, _) => accountID in cfg.accounts
       case FindExisting(id) =>
         var p := s.submitters[sub];
         (p.Checking? || p.Enqueuing?) && p.key != "" && id in s.rows && HasKey(s.rows[id], p.accountID, p.key)
       case FindNothing =>
         s.submitters[sub].Checking? && KeyFree(s.rows, s.submitters[sub].accountID, s.submitters[sub].key)
       case Resolve => s.submitters[sub].Resolving?
       case Plan(_) =>
         s.submitters[sub].Enqueuing? && KeyFree(s.rows, s.submitters[sub].accountID, s.submitters[sub].key)
       case Insert(_, _) => s.submitters[sub].Inserting?
       case Notify => s.submitters[sub].Inserted?
       case Abort => !s.submitters[sub].Inserted?
  }

  predicate Enabled(cfg: Config, s: State, step: Step) {
    match step
    case Work(w, act) => WorkEnabled(cfg, s, w, act)
    case Submit(sub, req) => SubmitEnabled(cfg, s, sub, req)
    case Crash => s.up
    case RestoreFails(_) => !s.up
    case Restart => !s.up
    case Tick(_) => true
  }

  // # Effects

  function SetWorker(s: State, w: nat, x: Worker): State
    requires w < |s.workers|
  {
    s.(workers := s.workers[w := x])
  }

  function SetSubmitter(s: State, sub: nat, x: Submitter): State {
    s.(submitters := s.submitters[sub := x])
  }

  function DropSubmitter(s: State, sub: nat): State {
    s.(submitters := s.submitters - {sub})
  }

  /** The claim as it reaches the table, whether or not the caller learns of it. */
  function ClaimRow(s: State, claimed: Option<string>): State {
    if claimed.None? then s
    else s.(rows := SetState(s.rows, claimed.value, Sending),
            pulls := s.pulls[claimed.value := Count(s.pulls, claimed.value) + 1])
  }

  function RestoreRows(s: State, fault: Fault): State {
    if fault == BeforeWrite then s
    else s.(rows := Restore(s.rows),
            interruptions := map id | id in s.rows ::
              if s.rows[id].state == Sending then Count(s.interruptions, id) + 1 else Count(s.interruptions, id))
  }

  function Return(s: State, sub: nat, id: string): State
    requires sub in s.submitters
  {
    DropSubmitter(s, sub).(returned := s.returned + {(s.submitters[sub].accountID, s.submitters[sub].key, id)})
  }

  function ApplyWork(cfg: Config, s: State, w: nat, act: WorkerAction): State
    requires WorkEnabled(cfg, s, w, act)
  {
    var me := s.workers[w];
    match act
    case Claim(id) => SetWorker(ClaimRow(s, Some(id)), w, Holding(me.next, id, s.rows[id].retryCount))
    case NothingToPull =>
      SetWorker(s, w, Scanning(me.next + 1, me.worked)).(owed := s.owed - {cfg.accounts[me.next]})
    case PullFails(claimed) =>
      SetWorker(ClaimRow(s, claimed), w, Scanning(me.next + 1, me.worked)).(owed := s.owed + {cfg.accounts[me.next]})
    case PullPanics(claimed) => SetWorker(ClaimRow(s, claimed), w, Scanning(me.next + 1, true))
    case Acknowledge(fault) =>
      SetWorker(s.(rows := Faulty(fault, s.rows, SetState(s.rows, me.job, Acknowledged))), w, Reporting(me.next))
    case Fail(o, fault) =>
      SetWorker(s.(rows := Faulty(fault, s.rows, AfterFailure(cfg.policy, s.rows, me.job, me.retry, s.clock, o))),
                w, Reporting(me.next))
    case SendPanics => SetWorker(s, w, Scanning(me.next + 1, true))
    case Report => SetWorker(s, w, Scanning(me.next + 1, true))
    case EndPass => SetWorker(s, w, if me.worked then Scanning(0, false) else Parked)
    case WakeByNotify => SetWorker(s, w, Scanning(0, false)).(notify := false)
    case WakeByTicker => SetWorker(s, w, Scanning(0, false))
  }

  function ApplySubmit(cfg: Config, s: State, sub: nat, req: SubmitAction): State
    requires SubmitEnabled(cfg, s, sub, req)
  {
    match req
    case Begin(accountID, key) => SetSubmitter(s, sub, Checking(accountID, key))
    case FindExisting(id) => Return(s, sub, id)
    case FindNothing => SetSubmitter(s, sub, Resolving(s.submitters[sub].accountID, s.submitters[sub].key))
    case Resolve => SetSubmitter(s, sub, Enqueuing(s.submitters[sub].accountID, s.submitters[sub].key))
    case Plan(id) =>
      SetSubmitter(s, sub, Inserting(s.submitters[sub].accountID, s.submitters[sub].key, id, UnixMilli(s.clock)))
    case Insert(payload, fault) =>
      var p := s.submitters[sub];
      var row := NewRow(p.accountID, payload, p.key, p.createdAt);
      if Conflicts(s.rows, p.id, row) || fault == BeforeWrite then DropSubmitter(s, sub)
      else if fault == AfterWrite then
        DropSubmitter(s.(rows := s.rows[p.id := row], owed := s.owed + {p.accountID}), sub)
      else SetSubmitter(s.(rows := s.rows[p.id := row]), sub, Inserted(p.accountID, p.key, p.id))
    case Notify => Return(s.(notify := true), sub, s.submitters[sub].id)
    case Abort => DropSubmitter(s, sub)
  }

  function Apply(cfg: Config, s: State, step: Step): State
    requires Enabled(cfg, s, step)
  {
    match step
    case Work(w, act) => ApplyWork(cfg, s, w, act)
    case Submit(sub, req) => ApplySubmit(cfg, s, sub, req)
    case Crash => s.(up := false, notify := false, workers := [], submitters := map[])
    case RestoreFails(fault) => RestoreRows(s, fault)
    case Restart =>
      RestoreRows(s, NoFault).(up := true, workers := seq(cfg.concurrency, _ => Scanning(0, false)))
    case Tick(ns) => s.(clock := s.clock + ns)
  }

  // # Runs

  /** A run starts at some instant past the epoch's first millisecond, as every clock today
      stands. */
  ghost predicate IsRun(cfg: Config, steps: seq<Step>, states: seq<State>) {
    && |states| == |steps| + 1
    && states[0] == Init(states[0].clock) && states[0].clock >= MILLISECOND
    && forall i {:trigger steps[i]} :: 0 <= i < |steps| ==>
         Enabled(cfg, states[i], steps[i]) && states[i + 1] == Apply(cfg, states[i], steps[i])
  }

  // # Frames: what each kind of step leaves alone

  /** Rows keep their account, payload, key and creation time, and are never removed. */
  ghost predicate Kept(t: Table, t': Table) {
    forall id :: id in t ==> id in t' && Same(t[id], t'[id])
  }

  predicate Same(a: Row, b: Row) {
    && a.accountID == b.accountID && a.payload == b.payload
    && a.idempotencyKey == b.idempotencyKey && a.createdAt == b.createdAt
  }

  /** The row a worker step claims, if any. */
  function Claimed(act: WorkerAction): Option<string> {
    match act
    case Claim(id) => Some(id)
    case PullFails(claimed) => claimed
    case PullPanics(claimed) => claimed
    case _ => None
  }

  /** The step ends the attempt on a held job, and its write reached the table. */
  predicate Settles(act: WorkerAction) {
    (act.Acknowledge? || act.Fail?) && act.fault != BeforeWrite
  }

  function Settle(policy: RetryPolicy, row: Row, act: WorkerAction, clock: nat): Row
    requires Settles(act)
  {
    if act.Acknowledge? then row.(state := Acknowledged)
    else if IsExhausted(policy, row.retryCount + 1) then row.(state := DeadLetter)
    else row.(state := Queued, retryCount := row.retryCount + 1,
              scheduledAt := UnixMilli(NextScheduledAt(policy, row.retryCount + 1, clock, act.o)))
  }

  /** The three things a worker step can do to the table. */
  lemma WorkRows(cfg: Config, s: State, w: nat, act: WorkerAction)
    requires WorkEnabled(cfg, s, w, act)
    requires s.workers[w].Holding? ==>
               s.workers[w].job in s.rows && s.rows[s.workers[w].job].retryCount == s.workers[w].retry
    ensures var s' := ApplyWork(cfg, s, w, act);
            var me := s.workers[w];
            if Claimed(act).Some? then
              var id := Claimed(act).value;
              && id in s.rows && s.rows[id].state == Queued
              && s'.rows == s.rows[id := s.rows[id].(state := Sending)]
              && s'.pulls == s.pulls[id := Count(s.pulls, id) + 1]
            else
              && s'.pulls == s.pulls
              && (!Settles(act) ==> s'.rows == s.rows)
              && (Settles(act) ==>
                    me.Holding? && s'.rows == s.rows[me.job := Settle(cfg.policy, s.rows[me.job], act, s.clock)])
  {
  }

  lemma WorkFrame(cfg: Config, s: State, w: nat, act: WorkerAction)
    requires WorkEnabled(cfg, s, w, act)
    ensures var s' := ApplyWork(cfg, s, w, act);
            && s'.clock == s.clock && s'.up == s.up && s'.submitters == s.submitters && s'.returned == s.returned
            && s'.interruptions == s.interruptions
            && (if act.WakeByNotify? then s.notify && !s'.notify else s'.notify == s.notify)
            && (!act.NothingToPull? && !act.PullFails? ==> s'.owed == s.owed)
            && |s'.workers| == |s.workers| && s'.workers == s.workers[w := s'.workers[w]]
  {
  }

  lemma WorkKeeps(cfg: Config, s: State, w: nat, act: WorkerAction)
    requires WorkEnabled(cfg, s, w, act)
    ensures Kept(s.rows, ApplyWork(cfg, s, w, act).rows)
  {
  }

  lemma SubmitFrame(cfg: Config, s: State, sub: nat, req: SubmitAction)
    requires SubmitEnabled(cfg, s, sub, req)
    ensures var s' := ApplySubmit(cfg, s, sub, req);
            && s'.clock == s.clock && s'.up == s.up && s'.workers == s.workers
            && s'.pulls == s.pulls && s'.interruptions == s.interruptions
            && s.returned <= s'.returned
            && (s'.rows == s.rows ||
                (req.Insert? && s.submitters[sub].id !in s.rows
                 && s'.rows == s.rows[s.submitters[sub].id := s'.rows[s.submitters[sub].id]]))
            && Kept(s.rows, s'.rows)
  {
    if req.Insert? {
      var p := s.submitters[sub];
      ConflictOnId(s.rows, p.id, NewRow(p.accountID, req.payload, p.key, p.createdAt));
    }
    hide Conflicts, KeyFree, HasKey;
  }

  lemma ConflictOnId(t: Table, id: string, row: Row)
    ensures id in t ==> Conflicts(t, id, row)
  {
  }

  lemma KeptStep(cfg: Config, s: State, step: Step)
    requires Enabled(cfg, s, step)
    ensures Kept(s.rows, Apply(cfg, s, step).rows)
    ensures s.returned <= Apply(cfg, s, step).returned
  {
    hide ApplyWork, ApplySubmit, WorkEnabled, SubmitEnabled;
    match step
    case Work(w, act) =>
      WorkFrame(cfg, s, w, act);
      WorkKeeps(cfg, s, w, act);
    case Submit(sub, req) => SubmitFrame(cfg, s, sub, req);
    case _ =>
  }

  // # Paths

  ghost predicate Path(cfg: Config, s: State, steps: seq<Step>, s': State)
    decreases |steps|
  {
    if steps == [] then s' == s
    else Enabled(cfg, s, steps[0]) && Path(cfg, Apply(cfg, s, steps[0]), steps[1..], s')
  }

  lemma OneStep(cfg: Config, s: State, step: Step)
    requires Enabled(cfg, s, step)
    ensures Path(cfg, s, [step], Apply(cfg, s, step))
  {
    hide Enabled, Apply;
    var s' := Apply(cfg, s, step);
    assert [step][1..] == [] && Path(cfg, s', [], s');
  }

  lemma {:induction false} PathConcat(cfg: Config, s: State, a: seq<Step>, s1: State, b: seq<Step>, s2: State)
    requires Path(cfg, s, a, s1) && Path(cfg, s1, b, s2)
    ensures Path(cfg, s, a + b, s2)
    decreases |a|
  {
    hide Enabled, Apply;
    if a == [] {
      assert a + b == b;
    } else {
      PathConcat(cfg, Apply(cfg, s, a[0]), a[1..], s1, b, s2);
      assert (a + b)[1..] == a[1..] + b;
    }
  }

  // # The sequential code follows the protocol

  /** The protocol's step for an attempt's outcome. */
  function OutcomeStep(delivery: Delivery, o: Duration, update: Fault): WorkerAction {
    match delivery
    case Panicked => SendPanics
    case Sent => Acknowledge(update)
    case _ => Fail(o, update)
  }

  /** A step of this worker, or the passing of time. */
  predicate StepOf(step: Step, w: nat) {
    step.Tick? || (step.Work? && step.w == w)
  }

  ghost predicate WorkPath(cfg: Config, s: State, w: nat, steps: seq<Step>, s': State) {
    Path(cfg, s, steps, s') && forall i :: 0 <= i < |steps| ==> StepOf(steps[i], w)
  }

  lemma OneAction(cfg: Config, s: State, w: nat, step: Step)
    requires Enabled(cfg, s, step) && StepOf(step, w)
    ensures WorkPath(cfg, s, w, [step], Apply(cfg, s, step))
  {
    OneStep(cfg, s, step);
  }

  lemma WorkPathConcat(cfg: Config, s: State, w: nat, a: seq<Step>, s1: State, b: seq<Step>, s2: State)
    requires WorkPath(cfg, s, w, a, s1) && WorkPath(cfg, s1, w, b, s2)
    ensures WorkPath(cfg, s, w, a + b, s2)
  {
    PathConcat(cfg, s, a, s1, b, s2);
    hide Path;
  }

  /** A worker that holds a job takes the step of its attempt's outcome, and reports unless
      the attempt panicked. */
  lemma SettledTurn(cfg: Config, s: State, w: nat, outcome: WorkerAction) returns (steps: seq<Step>, s': State)
    requires WorkEnabled(cfg, s, w, outcome) && Holds(s, w)
    requires outcome.SendPanics? || outcome.Acknowledge? || outcome.Fail?
    ensures WorkPath(cfg, s, w, steps, s')
    ensures s'.rows == ApplyWork(cfg, s, w, outcome).rows && s'.clock == s.clock
    ensures w < |s'.workers| && s'.workers[w] == Scanning(s.workers[w].next + 1, true)
  {
    var settled := ApplyWork(cfg, s, w, outcome);
    hide WorkPath, NextScheduledAt, AfterFailure, IsNext;
    OneAction(cfg, s, w, Work(w, outcome));
    if outcome.SendPanics? {
      s', steps := settled, [Work(w, outcome)];
    } else {
      s', steps := ApplyWork(cfg, settled, w, Report), [Work(w, outcome)] + [Work(w, Report)];
      OneAction(cfg, settled, w, Work(w, Report));
      WorkPathConcat(cfg, s, w, [Work(w, outcome)], settled, [Work(w, Report)], s');
    }
  }

  /** A turn that handles a job claims it, takes its time, and settles it. */
  lemma HandledTurn(cfg: Config, s: State, w: nat, id: string, turn: Turn)
    returns (steps: seq<Step>, s': State)
    requires turn.now == s.clock && turn.at >= turn.now && WorkEnabled(cfg, s, w, Claim(id))
    ensures WorkPath(cfg, s, w, steps, s')
    ensures s'.rows == Attempted(cfg.policy, s.rows, id, turn.delivery, turn.at, turn.o, turn.update)
    ensures s'.clock == turn.at
    ensures w < |s'.workers| && s'.workers[w] == Scanning(s.workers[w].next + 1, true)
  {
    var outcome := OutcomeStep(turn.delivery, turn.o, turn.update);
    var claimed := ApplyWork(cfg, s, w, Claim(id));
    var later := claimed.(clock := turn.at);
    hide WorkPath, NextScheduledAt, AfterFailure, IsNext;
    OneAction(cfg, s, w, Work(w, Claim(id)));
    OneAction(cfg, claimed, w, Tick(turn.at - turn.now));
    WorkPathConcat(cfg, s, w, [Work(w, Claim(id))], claimed, [Tick(turn.at - turn.now)], later);
    steps, s' := SettledTurn(cfg, later, w, outcome);
    WorkPathConcat(cfg, s, w, [Work(w, Claim(id))] + [Tick(turn.at - turn.now)], later, steps, s');
    steps := [Work(w, Claim(id))] + [Tick(turn.at - turn.now)] + steps;
  }

  /** So does a turn that gets none. */
  lemma EmptyTurn(cfg: Config, s: State, w: nat, turn: Turn, t': Table) returns (steps: seq<Step>, s': State)
    requires turn.now == s.clock && ScansAccount(cfg, s, w)
    requires TurnTaken(cfg.policy, s.rows, t', cfg.accounts[s.workers[w].next], turn, None)
    ensures WorkPath(cfg, s, w, steps, s') && s'.rows == t' && s'.clock == turn.now
    ensures w < |s'.workers| && s'.workers[w] == Scanning(s.workers[w].next + 1, s.workers[w].worked || turn.pullPanics)
  {
    hide IsNext, NothingEligible, WorkPath, Attempted;
    var claimed: Option<string> := None;
    if t' != s.rows {
      var id :| IsNext(s.rows, cfg.accounts[s.workers[w].next], UnixMilli(turn.now), id)
                && t' == SetState(s.rows, id, Sending);
      claimed := Some(id);
    }
    var act := if turn.pullPanics then PullPanics(claimed)
               else if turn.pull != NoFault then PullFails(claimed) else NothingToPull;
    s' := ApplyWork(cfg, s, w, act);
    OneAction(cfg, s, w, Work(w, act));
    steps := [Work(w, act)];
  }

  /** Whatever one turn of ProcessOne does to the table, the protocol's worker does too: with
      a job, without one, and after a failed or panicking pull; and it goes on to the next
      account, remembering whether there was work. */
  lemma ProcessOneFollowsProtocol(cfg: Config, s: State, w: nat, turn: Turn, job: Option<string>, t': Table)
    returns (steps: seq<Step>, s': State)
    requires turn.now == s.clock && turn.at >= turn.now && ScansAccount(cfg, s, w)
    requires TurnTaken(cfg.policy, s.rows, t', cfg.accounts[s.workers[w].next], turn, job)
    ensures WorkPath(cfg, s, w, steps, s') && s'.rows == t'
    ensures s'.clock == if job.Some? then turn.at else turn.now
    ensures w < |s'.workers|
    ensures s'.workers[w] == Scanning(s.workers[w].next + 1, s.workers[w].worked || job.Some? || turn.pullPanics)
  {
    hide IsNext, WorkPath, Attempted;
    if job.Some? {
      steps, s' := HandledTurn(cfg, s, w, job.value, turn);
    } else {
      steps, s' := EmptyTurn(cfg, s, w, turn, t');
    }
  }
}
