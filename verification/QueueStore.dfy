/** The outbound_queue table (internal/persistence/store.go) and the SQL statements over it. */
module QueueStore {
  import opened Wrappers

  datatype JobState = Queued | Sending | Acknowledged | DeadLetter

  predicate Terminal(state: JobState) {
    state == Acknowledged || state == DeadLetter
  }

  /** One job. scheduledAt and createdAt are Unix milliseconds; scheduledAt 0 is "at once". */
  datatype Row = Row(
    accountID: string,
    payload: string,
    state: JobState,
    retryCount: nat,
    scheduledAt: int,
    idempotencyKey: string,
    createdAt: int)

  type Table = map<string, Row>

  /** A store call can fail without having written, or after its write took effect. */
  datatype Fault = NoFault | BeforeWrite | AfterWrite

  function Faulty(fault: Fault, before: Table, after: Table): Table {
    if fault == BeforeWrite then before else after
  }

  // # Statements

  predicate Eligible(r: Row, accountID: string, now: int) {
    r.accountID == accountID && r.state == Queued && r.scheduledAt <= now
  }

  /** ORDER BY scheduled_at ASC, created_at ASC: a may come before b. */
  predicate SortsFirst(a: Row, b: Row) {
    a.scheduledAt < b.scheduledAt || (a.scheduledAt == b.scheduledAt && a.createdAt <= b.createdAt)
  }

  /** id is a row the pull query may return; ties are the database's to break. */
  predicate IsNext(t: Table, accountID: string, now: int, id: string) {
    && id in t
    && Eligible(t[id], accountID, now)
    && forall j :: j in t && Eligible(t[j], accountID, now) ==> SortsFirst(t[id], t[j])
  }

  predicate NothingEligible(t: Table, accountID: string, now: int) {
    forall j :: j in t ==> !Eligible(t[j], accountID, now)
  }

  /** The pull query: of the account's queued rows whose schedule has come, one with the least
      schedule, and of those with the least creation time; none only if there is none. */
  lemma PullOrder(t: Table, accountID: string, now: int, id: string)
    ensures IsNext(t, accountID, now, id) <==>
              && id in t && t[id].accountID == accountID && t[id].state == Queued && t[id].scheduledAt <= now
              && forall j :: j in t && t[j].accountID == accountID && t[j].state == Queued
                             && t[j].scheduledAt <= now ==>
                   || t[id].scheduledAt < t[j].scheduledAt
                   || (t[id].scheduledAt == t[j].scheduledAt && t[id].createdAt <= t[j].createdAt)
    ensures NothingEligible(t, accountID, now) <==>
            forall j :: j in t && t[j].accountID == accountID && t[j].state == Queued ==> t[j].scheduledAt > now
  {
  }

  function SetState(t: Table, id: string, state: JobState): Table {
    if id in t then t[id := t[id].(state := state)] else t
  }

  function Reschedule(t: Table, id: string, retryCount: nat, scheduledAt: int): Table {
    if id in t then t[id := t[id].(state := Queued, retryCount := retryCount, scheduledAt := scheduledAt)] else t
  }

  function Restore(t: Table): Table {
    map id | id in t :: if t[id].state == Sending then t[id].(state := Queued) else t[id]
  }

  /** The primary key, and the unique index on (account_id, idempotency_key) when set. */
  predicate Conflicts(t: Table, id: string, row: Row) {
    id in t || (row.idempotencyKey != "" && exists j :: j in t && HasKey(t[j], row.accountID, row.idempotencyKey))
  }

  predicate HasKey(r: Row, accountID: string, key: string) {
    r.accountID == accountID && r.idempotencyKey == key
  }

  lemma {:induction false} SomeRowIsNext(t: Table, ids: set<string>, accountID: string, now: int) returns (id: string)
    requires ids != {} && ids <= t.Keys && forall j :: j in ids ==> Eligible(t[j], accountID, now)
    ensures id in ids && forall j :: j in ids ==> SortsFirst(t[id], t[j])
    decreases |ids|
  {
    id :| id in ids;
    var rest := ids - {id};
    if rest != {} {
      var other := SomeRowIsNext(t, rest, accountID, now);
      if !SortsFirst(t[id], t[other]) {
        id := other;
      }
    }
  }

  class Store {
    var rows: Table

    constructor ()
      ensures rows == map[]
    {
      rows := map[];
    }

    method Enqueue(id: string, row: Row, fault: Fault) returns (ok: bool)
      modifies this
      ensures ok <==> fault == NoFault && !Conflicts(old(rows), id, row)
      ensures rows == if Conflicts(old(rows), id, row) then old(rows)
                      else Faulty(fault, old(rows), old(rows)[id := row])
    {
      if fault == BeforeWrite || Conflicts(rows, id, row) {
        return false;
      }
      rows := rows[id := row];
      ok := fault == NoFault;
    }

    /** At most one row carries a given key; None also when the key is empty. */
    method GetByIdempotencyKey(accountID: string, key: string, fault: Fault) returns (r: Result<Option<string>, ()>)
      ensures r.Failure? <==> key != "" && fault != NoFault
      ensures r.Success? && r.value.Some? ==>
                key != "" && r.value.value in rows && HasKey(rows[r.value.value], accountID, key)
      ensures r.Success? && r.value.None? ==>
                key == "" || forall j :: j in rows ==> !HasKey(rows[j], accountID, key)
    {
      if key == "" {
        return Success(None);
      }
      if fault != NoFault {
        return Failure(());
      }
      if j :| j in rows && HasKey(rows[j], accountID, key) {
        return Success(Some(j));
      }
      return Success(None);
    }

    /** One transaction: select the first eligible row, mark it sending, commit. */
    method PullNext(accountID: string, now: int, fault: Fault) returns (r: Result<Option<(string, Row)>, ()>)
      modifies this
      ensures r.Failure? <==> fault != NoFault
      ensures r.Success? && r.value.None? ==> rows == old(rows) && NothingEligible(rows, accountID, now)
      ensures r.Success? && r.value.Some? ==>
                var (id, row) := r.value.value;
                && IsNext(old(rows), accountID, now, id)
                && rows == SetState(old(rows), id, Sending)
                && row == rows[id]
      ensures r.Failure? ==>
                || rows == old(rows)
                || exists id :: IsNext(old(rows), accountID, now, id) && rows == SetState(old(rows), id, Sending)
    {
      if fault == BeforeWrite {
        return Failure(());
      }
      var ids := set j | j in rows && Eligible(rows[j], accountID, now);
      if ids == {} {
        assert forall j :: j in rows && Eligible(rows[j], accountID, now) ==> j in ids;
        return if fault == NoFault then Success(None) else Failure(());
      }
      ghost var first := SomeRowIsNext(rows, ids, accountID, now);
      assert IsNext(rows, accountID, now, first);
      var id :| id in rows && IsNext(rows, accountID, now, id);
      rows := SetState(rows, id, Sending);
      return if fault == NoFault then Success(Some((id, rows[id]))) else Failure(());
    }

    method UpdateState(id: string, state: JobState, fault: Fault) returns (ok: bool)
      modifies this
      ensures ok <==> fault == NoFault
      ensures rows == Faulty(fault, old(rows), SetState(old(rows), id, state))
    {
      if fault != BeforeWrite && id in rows {
        rows := rows[id := rows[id].(state := state)];
      }
      ok := fault == NoFault;
    }

    method ScheduleRetry(id: string, retryCount: nat, scheduledAt: int, fault: Fault) returns (ok: bool)
      modifies this
      ensures ok <==> fault == NoFault
      ensures rows == Faulty(fault, old(rows), Reschedule(old(rows), id, retryCount, scheduledAt))
    {
      if fault != BeforeWrite && id in rows {
        rows := rows[id := rows[id].(state := Queued, retryCount := retryCount, scheduledAt := scheduledAt)];
      }
      ok := fault == NoFault;
    }

    method RestoreStuck(fault: Fault) returns (ok: bool)
      modifies this
      ensures ok <==> fault == NoFault
      ensures rows == Faulty(fault, old(rows), Restore(old(rows)))
    {
      if fault != BeforeWrite {
        rows := Restore(rows);
      }
      ok := fault == NoFault;
    }
  }
}
