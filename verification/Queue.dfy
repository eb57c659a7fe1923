/** The queue manager (internal/queue/manager.go, recover.go), the worker's handling of one
    job (internal/worker/worker.go) and submission (internal/submission), each in the
    source's step order. Store faults, the clock, fresh ids and delivery are parameters. */
module Queue {
  import opened Wrappers
  import opened Backoff
  import opened Events
  import opened QueueStore

  /** The row written for a failed attempt: rescheduled, or dead once retries run out. */
  function AfterFailure(policy: RetryPolicy, t: Table, id: string, retryCount: nat, now: int, o: Duration): Table {
    if IsExhausted(policy, retryCount + 1) then SetState(t, id, DeadLetter)
    else Reschedule(t, id, retryCount + 1, UnixMilli(NextScheduledAt(policy, retryCount + 1, now, o)))
  }

  function NewRow(accountID: string, payload: string, key: string, createdAt: int): Row {
    Row(accountID, payload, Queued, 0, 0, key, createdAt)
  }

  /** Some row carries this key, which is not empty. */
  predicate Known(t: Table, accountID: string, key: string) {
    key != "" && exists j :: j in t && HasKey(t[j], accountID, key)
  }

  /** The message of a request, by how it encodes as a job payload. */
  datatype Message = Nil | Unencodable | Encoded(payload: string)

  /** A submitted job as it is stored: due at once, never retried, with the caller's account,
      message and key. */
  predicate IsNewJob(row: Row, accountID: string, payload: string, key: string, createdAt: int) {
    && row.accountID == accountID && row.payload == payload && row.idempotencyKey == key
    && row.createdAt == createdAt && row.state == Queued && row.retryCount == 0 && row.scheduledAt == 0
  }

  /** validateDestination: a room id, an alias or a user id. */
  predicate HasSigil(destination: string) {
    destination != "" && destination[0] in {'!', '#', '@'}
  }

  /** What became of a delivery attempt. */
  datatype Delivery = NoClient | Sent | SendFailed | Panicked

  class Manager {
    const store: Store
    const policy: RetryPolicy
    var notify: bool  // the capacity-1 channel: holds a signal or not

    constructor (store: Store, policy: RetryPolicy)
      ensures this.store == store && this.policy == policy && !notify
    {
      this.store := store;
      this.policy := policy;
      notify := false;
    }

    method Enqueue(accountID: string, message: Message, key: string, id: string, now: int,
                   lookup: Fault, insert: Fault)
      returns (r: Result<string, ()>)
      modifies this, store
      ensures r.Success? <==>
                && (key == "" || lookup == NoFault)
                && (Known(old(store.rows), accountID, key) ||
                    (message.Encoded? && insert == NoFault && id !in old(store.rows)))
      ensures r.Success? && Known(old(store.rows), accountID, key) ==>
                && r.value in store.rows && HasKey(store.rows[r.value], accountID, key)
                && store.rows == old(store.rows) && notify == old(notify)
      ensures r.Success? && !Known(old(store.rows), accountID, key) ==>
                && message.Encoded? && r.value == id && id in store.rows && notify
                && store.rows == old(store.rows)[id := store.rows[id]]
                && IsNewJob(store.rows[id], accountID, message.payload, key, now)
      ensures r.Failure? ==>
                && notify == old(notify)
                && (store.rows == old(store.rows) ||
                    (message.Encoded? && insert == AfterWrite && id !in old(store.rows) && id in store.rows
                     && store.rows == old(store.rows)[id := store.rows[id]]
                     && IsNewJob(store.rows[id], accountID, message.payload, key, now)))
    {
      if key != "" {
        var existing := store.GetByIdempotencyKey(accountID, key, lookup);
        if existing.Failure? {
          return Failure(());
        }
        if existing.value.Some? {
          return Success(existing.value.value);
        }
      }
      if !message.Encoded? {
        return Failure(());
      }
      var ok := store.Enqueue(id, NewRow(accountID, message.payload, key, now), insert);
      if !ok {
        return Failure(());
      }
      notify := true;
      return Success(id);
    }

    /** Some((true, at)) is a retry at that time, Some((false, _)) the dead letter. */
    method ScheduleRetry(jobID: string, currentRetryCount: nat, now: int, o: Duration, fault: Fault)
      returns (r: Result<(bool, int), ()>)
      modifies store
      ensures r.Success? <==> fault == NoFault
      ensures r.Success? ==> (r.value.0 <==> currentRetryCount < policy.maxRetries)
      ensures r.Success? && r.value.0 ==> r.value.1 == NextScheduledAt(policy, currentRetryCount + 1, now, o)
      ensures store.rows == Faulty(fault, old(store.rows),
                                   AfterFailure(policy, old(store.rows), jobID, currentRetryCount, now, o))
    {
      var next := currentRetryCount + 1;
      if IsExhausted(policy, next) {
        var ok := store.UpdateState(jobID, DeadLetter, fault);
        return if ok then Success((false, 0)) else Failure(());
      }
      var at := NextScheduledAt(policy, next, now, o);
      var ok := store.ScheduleRetry(jobID, next, UnixMilli(at), fault);
      return if ok then Success((true, at)) else Failure(());
    }
  }

  /** The rows after a claimed job has been attempted: acknowledged, handed back or dead, or
      left sending by a panic. */
  function Attempted(policy: RetryPolicy, t: Table, id: string, delivery: Delivery, now: int, o: Duration,
                     update: Fault): Table
    requires id in t
  {
    var claimed := SetState(t, id, Sending);
    match delivery
    case Panicked => claimed
    case Sent => Faulty(update, claimed, SetState(claimed, id, Acknowledged))
    case _ => Faulty(update, claimed, AfterFailure(policy, claimed, id, t[id].retryCount, now, o))
  }

  /** What an attempt leaves of its job's row, in the row's own terms. */
  lemma AttemptedRow(policy: RetryPolicy, t: Table, id: string, delivery: Delivery, now: int, o: Duration,
                     update: Fault)
    requires id in t
    ensures var t' := Attempted(policy, t, id, delivery, now, o, update);
            && t'.Keys == t.Keys && (forall j :: j in t && j != id ==> t'[j] == t[j])
            && t'[id] ==
                 if delivery.Panicked? || update == BeforeWrite then t[id].(state := Sending)
                 else if delivery.Sent? then t[id].(state := Acknowledged)
                 else if t[id].retryCount >= policy.maxRetries then t[id].(state := DeadLetter)
                 else t[id].(state := Queued, retryCount := t[id].retryCount + 1,
                             scheduledAt := (now + Delay(policy, t[id].retryCount + 1, o)) / 1_000_000)
  {
    hide Delay;
  }

  /** How one account's turn goes: the clock at its pull and, after the attempt, at the
      scheduling of a retry; the faults; and what the platform converts out of range to. */
  datatype Turn = Turn(delivery: Delivery, now: int, at: int, o: Duration, pull: Fault, pullPanics: bool, update: Fault)

  /** A turn that handled `job`, or got none. After a failed or panicking pull the row may have
      been claimed all the same. */
  ghost predicate TurnTaken(policy: RetryPolicy, t: Table, t': Table, accountID: string, turn: Turn,
                            job: Option<string>) {
    match job
    case Some(id) =>
      && turn.pull == NoFault && !turn.pullPanics && IsNext(t, accountID, UnixMilli(turn.now), id)
      && t' == Attempted(policy, t, id, turn.delivery, turn.at, turn.o, turn.update)
    case None =>
      if turn.pull == NoFault && !turn.pullPanics then t' == t && NothingEligible(t, accountID, UnixMilli(turn.now))
      else t' == t || exists id :: IsNext(t, accountID, UnixMilli(turn.now), id) && t' == SetState(t, id, Sending)
  }

  /** One pull and delivery for one account. `processed` says whether a job was handled or a
      panic recovered, in the pull or in the delivery; a panic leaves a claimed row sending. */
  method ProcessOne(m: Manager, accountID: string, turn: Turn)
    returns (processed: bool, event: Option<EventType>, ghost job: Option<string>)
    modifies m.store
    ensures processed <==> job.Some? || turn.pullPanics
    ensures TurnTaken(m.policy, old(m.store.rows), m.store.rows, accountID, turn, job)
    ensures job.None? ==> event.None?
    ensures job.Some? ==>
              && job.value in old(m.store.rows) && job.value in m.store.rows
              && var was, row := old(m.store.rows)[job.value], m.store.rows[job.value];
                 var failed := turn.delivery.SendFailed? && turn.update == NoFault;
                 && (event == Some("delivery.acknowledged") <==> turn.delivery.Sent?)
                 && (event == Some("delivery.retry_scheduled") <==>
                       failed && row.state == Queued && row.retryCount == was.retryCount + 1)
                 && (event == Some("delivery.retry_exhausted") <==> failed && row.state == DeadLetter)
                 && (event.None? <==> !turn.delivery.Sent? && !failed)
  {
    var Turn(delivery, now, at, o, pull, pullPanics, update) := turn;
    job, event := None, None;
    var pulled := m.store.PullNext(accountID, UnixMilli(now), pull);
    if pullPanics {
      return true, None, None;
    }
    if pulled.Failure? || pulled.value.None? {
      return false, None, None;
    }
    var (id, row) := pulled.value.value;
    job := Some(id);
    processed := true;
    match delivery
    case Panicked =>
    case NoClient => var _ := m.ScheduleRetry(id, row.retryCount, at, o, update);
    case SendFailed =>
      var retried := m.ScheduleRetry(id, row.retryCount, at, o, update);
      if retried.Success? {
        event := Some(if retried.value.0 then "delivery.retry_scheduled" else "delivery.retry_exhausted");
      }
    case Sent =>
      var _ := m.store.UpdateState(id, Acknowledged, update);
      event := Some("delivery.acknowledged");
  }

  /** The tables between the turns of a pass. */
  ghost predicate PassTaken(policy: RetryPolicy, accounts: seq<string>, turns: nat -> Turn, tables: seq<Table>,
                            jobs: seq<Option<string>>) {
    && |tables| == |jobs| + 1 && |jobs| <= |accounts|
    && forall k :: 0 <= k < |jobs| ==> TurnTaken(policy, tables[k], tables[k + 1], accounts[k], turns(k), jobs[k])
  }

  /** A worker's pass: one turn per account, in order. It reports work exactly when some turn
      handled a job or a panic in its pull. */
  method RunPass(m: Manager, accounts: seq<string>, turns: nat -> Turn)
    returns (worked: bool, ghost tables: seq<Table>, ghost jobs: seq<Option<string>>)
    modifies m.store
    ensures |jobs| == |accounts| && PassTaken(m.policy, accounts, turns, tables, jobs)
    ensures tables[0] == old(m.store.rows) && tables[|accounts|] == m.store.rows
    ensures worked <==> exists k :: 0 <= k < |jobs| && (jobs[k].Some? || turns(k).pullPanics)
  {
    hide TurnTaken;
    worked, tables, jobs := false, [m.store.rows], [];
    for k := 0 to |accounts|
      invariant |jobs| == k && PassTaken(m.policy, accounts, turns, tables, jobs)
      invariant tables[0] == old(m.store.rows) && tables[k] == m.store.rows
      invariant worked <==> exists j :: 0 <= j < |jobs| && (jobs[j].Some? || turns(j).pullPanics)
    {
      ghost var before := jobs;
      var processed, _, job := ProcessOne(m, accounts[k], turns(k));
      if processed {
        worked := true;
      }
      tables, jobs := tables + [m.store.rows], jobs + [job];
      assert jobs[k] == job && forall j :: 0 <= j < k ==> jobs[j] == before[j];
    }
  }

  /** So a worker goes to sleep, absent failed pulls, only after a pass that changed nothing
      and found nothing for any account. */
  lemma {:induction false} IdlePassFoundNothing(policy: RetryPolicy, accounts: seq<string>, turns: nat -> Turn,
                                                tables: seq<Table>, jobs: seq<Option<string>>, k: nat)
    requires PassTaken(policy, accounts, turns, tables, jobs) && k <= |jobs|
    requires forall j :: 0 <= j < |jobs| ==> jobs[j].None? && turns(j).pull == NoFault && !turns(j).pullPanics
    ensures tables[k] == tables[0]
    ensures forall j :: 0 <= j < k ==> NothingEligible(tables[0], accounts[j], UnixMilli(turns(j).now))
  {
    if k > 0 {
      IdlePassFoundNothing(policy, accounts, turns, tables, jobs, k - 1);
      assert TurnTaken(policy, tables[k - 1], tables[k], accounts[k - 1], turns(k - 1), jobs[k - 1]);
    }
  }

  /** The submission steps: validation, idempotency pre-check, destination, enqueue. */
  method Submit(m: Manager, accounts: set<string>, accountID: string, destination: string, message: Message,
                key: string, destinationResolves: bool, id: string, now: int,
                check: Fault, lookup: Fault, insert: Fault)
    returns (r: Result<string, ()>)
    modifies m, m.store
    ensures var t := old(m.store.rows);
            r.Success? <==>
              && accountID in accounts && !message.Nil? && (key == "" || check == NoFault)
              && destination != "" && (destination[0] == '!' || destination[0] == '#' || destination[0] == '@')
              && (Known(t, accountID, key) ||
                  (destinationResolves && message.Encoded? && (key == "" || lookup == NoFault)
                   && insert == NoFault && id !in t))
    ensures r.Success? && Known(old(m.store.rows), accountID, key) ==>
              && r.value in m.store.rows && HasKey(m.store.rows[r.value], accountID, key)
              && m.store.rows == old(m.store.rows)
    ensures r.Success? && !Known(old(m.store.rows), accountID, key) ==>
              && message.Encoded? && r.value == id && id in m.store.rows && m.notify
              && m.store.rows == old(m.store.rows)[id := m.store.rows[id]]
              && IsNewJob(m.store.rows[id], accountID, message.payload, key, now)
    ensures r.Failure? ==>
              || m.store.rows == old(m.store.rows)
              || (message.Encoded? && insert == AfterWrite && id !in old(m.store.rows) && id in m.store.rows
                  && m.store.rows == old(m.store.rows)[id := m.store.rows[id]]
                  && IsNewJob(m.store.rows[id], accountID, message.payload, key, now))
  {
    if accountID !in accounts || !HasSigil(destination) || message.Nil? {
      return Failure(());
    }
    var existing := m.store.GetByIdempotencyKey(accountID, key, check);
    if existing.Failure? {
      return Failure(());
    }
    if existing.value.Some? {
      return Success(existing.value.value);
    }
    if !destinationResolves {
      return Failure(());
    }
    r := m.Enqueue(accountID, message, key, id, now, lookup, insert);
  }
}
