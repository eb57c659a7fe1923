/** The correlation manager's methods (internal/correlation), one goroutine at a time: handles
    as objects, the two maps, routing of an event, limit and timeout resolution, and the
    sweep. Store faults and the clock are parameters. */
module CorrelationHandles {
  import opened Wrappers
  import opened Events
  import opened Filter
  import opened QueueStore
  import opened AskFilter
  import opened Correlation

  /** The whole body of once.Do, in the steps of the protocol. */
  function OnceBody(h: Handle, fault: Fault): Handle
    requires h.once.Running?
    decreases match h.once.stage case Snapshot => 5 case Emit => 4 case CloseDone => 3 case Remove => 2 case Update => 1
  {
    var h' := AdvanceHandle(h, fault);
    if h'.once.Running? then OnceBody(h', fault) else h'
  }

  /** An open handle after its once body has run with this outcome. */
  function Ended(h: Handle, o: Outcome, fault: Fault): Handle {
    h.(once := Finished(o), doneCloses := 1, updateFailed := fault != NoFault,
       result := match o
                 case Matched(env) => ResultChan([[env]], 0, 0)
                 case TimedOut => ResultChan([], 0, 1)
                 case Window(_) => ResultChan([h.collected], 0, 0))
  }

  /** Run without interruption, the protocol's body has the effect the methods below have in
      one go: one send or one close, one close of done, and, for a receive, what had been
      collected as the result. */
  lemma OnceBodyEffect(h: Handle, o: Outcome, fault: Fault)
    requires h.once.Fresh? && h.result == ResultChan([], 0, 0) && h.doneCloses == 0
    requires o.Window? <==> h.kind.Receive?
    ensures OnceBody(Win(h, o), fault) == Ended(h, o, fault)
  {
    var h1 := AdvanceHandle(Win(h, o), fault);
    var h2 := AdvanceHandle(h1, fault);
    var h3 := AdvanceHandle(h2, fault);
    var h4 := AdvanceHandle(h3, fault);
    assert OnceBody(Win(h, o), fault) == OnceBody(h1, fault) == OnceBody(h2, fault) == OnceBody(h3, fault);
    if h4.once.Running? {
      assert OnceBody(h3, fault) == OnceBody(h4, fault);
    }
  }

  /** One row update: it writes the state of that row alone, unless it failed before the write. */
  lemma RowUpdate(rows: map<string, CorrelationRow>, id: string, state: RowState, fault: Fault)
    ensures var after := SetRowState(rows, id, state, fault);
            && after.Keys == rows.Keys && (forall j :: j in rows && j != id ==> after[j] == rows[j])
            && (id in rows && fault == BeforeWrite ==> after[id] == rows[id])
            && (id in rows && fault != BeforeWrite ==> after[id] == CorrelationRow(state, rows[id].timeoutAt))
  {
  }

  /** A run of row updates. */
  function SetRows(rows: map<string, CorrelationRow>, ids: seq<string>, state: RowState, faults: nat -> Fault)
    : map<string, CorrelationRow>
  {
    if ids == [] then rows
    else SetRowState(SetRows(rows, ids[..|ids| - 1], state, faults), ids[|ids| - 1], state, faults(|ids| - 1))
  }

  /** It touches the named rows only, and leaves each in the state when no update fails. */
  lemma {:induction false} SetRowsEffect(rows: map<string, CorrelationRow>, ids: seq<string>, state: RowState,
                                         faults: nat -> Fault)
    ensures var rows' := SetRows(rows, ids, state, faults);
            && rows'.Keys == rows.Keys
            && (forall id :: id in rows && id !in ids ==> rows'[id] == rows[id])
            && (forall id :: id in rows ==> rows'[id].timeoutAt == rows[id].timeoutAt)
            && ((forall i: nat :: faults(i) == NoFault) ==>
                  forall id :: id in rows && id in ids ==> rows'[id].state == state)
  {
    if ids != [] {
      SetRowsEffect(rows, ids[..|ids| - 1], state, faults);
    }
  }

  /** The rows after a sweep's updates and deletion. */
  function SweptRows(rows: map<string, CorrelationRow>, asks: seq<string>, receives: seq<string>, now: int,
                     askFaults: nat -> Fault, receiveFaults: nat -> Fault, prune: Fault): map<string, CorrelationRow> {
    var updated := SetRows(SetRows(rows, asks, Expired, askFaults), receives, Expired, receiveFaults);
    if prune == BeforeWrite then updated else Pruned(updated, UnixMilli(now))
  }

  /** No store call of a series fails. */
  ghost predicate NoFaults(faults: nat -> Fault) {
    forall i: nat :: faults(i) == NoFault
  }

  /** With no update failing, the rows of the completed handles are expired and kept; the
      others are deleted exactly when prunable, and otherwise unchanged. */
  lemma SweptRowsEffect(rows: map<string, CorrelationRow>, asks: seq<string>, receives: seq<string>, now: int,
                        askFaults: nat -> Fault, receiveFaults: nat -> Fault, prune: Fault, id: string)
    requires NoFaults(askFaults) && NoFaults(receiveFaults)
    ensures var after := SweptRows(rows, asks, receives, now, askFaults, receiveFaults, prune);
            && (id in after ==> id in rows)
            && (id in rows && (id in asks || id in receives) ==> id in after && after[id].state == Expired)
            && (id in rows && id !in asks && id !in receives ==>
                  && (id in after <==> prune == BeforeWrite || !Prunable(rows[id], UnixMilli(now)))
                  && (id in after ==> after[id] == rows[id]))
  {
    SetRowsEffect(rows, asks, Expired, askFaults);
    SetRowsEffect(SetRows(rows, asks, Expired, askFaults), receives, Expired, receiveFaults);
    hide SetRows;
  }

  function AskID(a: ActiveAsk): string { a.id }

  function ReceiveID(r: ActiveReceive): string { r.id }

  function IDs<T>(idOf: T -> string, xs: seq<T>): (ids: seq<string>)
    ensures |ids| == |xs| && forall i :: 0 <= i < |ids| ==> ids[i] == idOf(xs[i])
  {
    if xs == [] then [] else IDs(idOf, xs[..|xs| - 1]) + [idOf(xs[|xs| - 1])]
  }

  lemma IDsMember<T>(idOf: T -> string, xs: seq<T>, id: string)
    ensures id in IDs(idOf, xs) <==> exists x :: x in xs && idOf(x) == id
  {
    if id in IDs(idOf, xs) {
      var i :| 0 <= i < |xs| && IDs(idOf, xs)[i] == id;
      assert xs[i] in xs;
    }
    if x :| x in xs && idOf(x) == id {
      var i :| 0 <= i < |xs| && xs[i] == x;
      assert IDs(idOf, xs)[i] == id;
    }
  }

  lemma IDsEmpty<T>(idOf: T -> string, xs: seq<T>)
    ensures IDs(idOf, xs[..0]) == []
  {
  }

  lemma IDsSnoc<T>(idOf: T -> string, xs: seq<T>, i: nat)
    requires i < |xs|
    ensures IDs(idOf, xs[..i + 1]) == IDs(idOf, xs[..i]) + [idOf(xs[i])]
  {
    assert xs[..i + 1][..i] == xs[..i];
  }

  function Removed<T>(m: map<string, T>, ids: seq<string>): map<string, T> {
    map id | id in m && id !in ids :: m[id]
  }

  lemma NothingSettled<T>(m: map<string, T>, rows: map<string, CorrelationRow>, state: RowState, faults: nat -> Fault)
    ensures Removed(m, []) == m && SetRows(rows, [], state, faults) == rows
  {
  }

  lemma SettledOne<T>(m: map<string, T>, rows: map<string, CorrelationRow>, ids: seq<string>, id: string,
                      state: RowState, faults: nat -> Fault)
    ensures Removed(m, ids + [id]) == Removed(m, ids) - {id}
    ensures SetRows(rows, ids + [id], state, faults)
        == SetRowState(SetRows(rows, ids, state, faults), id, state, faults(|ids|))
  {
    assert (ids + [id])[..|ids|] == ids;
  }

  lemma StillListed<T>(idOf: T -> string, m: map<string, T>, found: seq<T>, i: nat)
    requires i < |found| && idOf(found[i]) in m && m[idOf(found[i])] == found[i]
    requires forall j :: 0 <= j < i ==> idOf(found[j]) != idOf(found[i])
    ensures var m' := Removed(m, IDs(idOf, found[..i])); idOf(found[i]) in m' && m'[idOf(found[i])] == found[i]
  {
  }

  class ActiveAsk {
    const id: string
    const accountID: string
    const filter: Option<CompiledNode>
    const timeoutAt: int
    var sent: seq<Envelope>  // on the capacity-1 result channel
    var closed: bool         // the result channel
    var done: bool
    var once: bool

    constructor (id: string, accountID: string, filter: Option<CompiledNode>, timeoutAt: int)
      ensures this.id == id && this.accountID == accountID && this.filter == filter && this.timeoutAt == timeoutAt
      ensures Open()
    {
      this.id, this.accountID, this.filter, this.timeoutAt := id, accountID, filter, timeoutAt;
      sent, closed, done, once := [], false, false, false;
    }

    predicate Open()
      reads this
    {
      !once && sent == [] && !closed && !done
    }

    /** One send, or one close, of the result channel, and one close of done. */
    predicate Completed(outcome: Option<Envelope>)
      reads this
    {
      once && done && closed == outcome.None? && sent == if outcome.Some? then [outcome.value] else []
    }

    predicate Wants(re: Regexp, env: Envelope) {
      && !(env.payload.Message? && env.payload.eventID == id)
      && FilterMatches(re, filter, env, accountID)
    }
  }

  class ActiveReceive {
    const id: string
    const accountID: string
    const filter: Option<CompiledNode>
    const timeoutAt: int
    const limit: int
    var collected: seq<Envelope>
    var sent: seq<seq<Envelope>>
    var done: bool
    var once: bool

    constructor (id: string, accountID: string, filter: Option<CompiledNode>, timeoutAt: int, limit: int)
      ensures this.id == id && this.accountID == accountID && this.filter == filter
      ensures this.timeoutAt == timeoutAt && this.limit == limit
      ensures Open() && collected == []
    {
      this.id, this.accountID, this.filter, this.timeoutAt, this.limit := id, accountID, filter, timeoutAt, limit;
      collected, sent, done, once := [], [], false, false;
    }

    predicate Open()
      reads this
    {
      !once && sent == [] && !done
    }

    predicate Completed(events: seq<Envelope>)
      reads this
    {
      once && done && sent == [events]
    }

    predicate Wants(re: Regexp, env: Envelope) {
      FilterMatches(re, filter, env, accountID)
    }

    /** Appends below the limit; says whether this append reached it. */
    method Collect(env: Envelope) returns (atLimit: bool)
      modifies this`collected
      ensures collected == if AtLimit(limit, old(collected)) then old(collected) else old(collected) + [env]
      ensures atLimit <==> !AtLimit(limit, old(collected)) && AtLimit(limit, collected)
    {
      if limit > 0 && |collected| >= limit {
        return false;
      }
      collected := collected + [env];
      atLimit := limit > 0 && |collected| >= limit;
    }
  }

  function AskWants(re: Regexp, env: Envelope): ActiveAsk -> bool {
    (a: ActiveAsk) => a.Wants(re, env)
  }

  function ReceiveWants(re: Regexp, env: Envelope): ActiveReceive -> bool {
    (r: ActiveReceive) => r.Wants(re, env)
  }

  function LateAsk(now: int): ActiveAsk -> bool {
    (a: ActiveAsk) => now > a.timeoutAt
  }

  function LateReceive(now: int): ActiveReceive -> bool {
    (r: ActiveReceive) => now > r.timeoutAt
  }

  /** The rows after a sweep that met no fault: late handles' rows are expired, and no listed
      handle's row is gone; of the others exactly the prunable are. */
  ghost predicate RowsSwept(after: map<string, CorrelationRow>, before: map<string, CorrelationRow>,
                            asks: map<string, ActiveAsk>, receives: map<string, ActiveReceive>, now: int,
                            prune: Fault) {
    && after.Keys <= before.Keys
    && forall id :: id in before ==> RowSwept(after, before, asks, receives, now, prune, id)
  }

  predicate RowSwept(after: map<string, CorrelationRow>, before: map<string, CorrelationRow>,
                     asks: map<string, ActiveAsk>, receives: map<string, ActiveReceive>, now: int, prune: Fault,
                     id: string)
    requires id in before
  {
    if (id in asks && now > asks[id].timeoutAt) || (id in receives && now > receives[id].timeoutAt)
    then id in after && after[id].state == Expired
    else if id !in asks && id !in receives && prune != BeforeWrite
            && before[id].state == Pending && 0 < before[id].timeoutAt < now / 1_000_000
    then id !in after
    else id in after && after[id] == before[id]
  }

  // # The manager's maps and rows as values

  datatype AskView = AskView(accountID: string, filter: Option<CompiledNode>, timeoutAt: int)

  datatype ReceiveView = ReceiveView(accountID: string, filter: Option<CompiledNode>, timeoutAt: int, limit: int,
                                     collected: seq<Envelope>)

  datatype View = View(asks: map<string, AskView>, receives: map<string, ReceiveView>,
                       rows: map<string, CorrelationRow>)

  function AskOf(a: ActiveAsk): AskView {
    AskView(a.accountID, a.filter, a.timeoutAt)
  }

  function ReceiveOf(r: ActiveReceive, collected: seq<Envelope>): ReceiveView {
    ReceiveView(r.accountID, r.filter, r.timeoutAt, r.limit, collected)
  }

  /** A registration adds the handle, and its row, pending until the deadline's millisecond. */
  function AskRegistered(v: View, id: string, accountID: string, filter: Option<CompiledNode>, timeoutAt: int): View {
    v.(asks := v.asks[id := AskView(accountID, filter, timeoutAt)],
       rows := v.rows[id := CorrelationRow(Pending, timeoutAt / 1_000_000)])
  }

  function ReceiveRegistered(v: View, id: string, accountID: string, filter: Option<CompiledNode>, timeoutAt: int,
                             limit: int): View {
    v.(receives := v.receives[id := ReceiveView(accountID, filter, timeoutAt, limit, [])],
       rows := v.rows[id := CorrelationRow(Pending, timeoutAt / 1_000_000)])
  }

  predicate Distinct(ids: seq<string>) {
    forall i, j :: 0 <= i < j < |ids| ==> ids[i] != ids[j]
  }

  predicate AskMatches(re: Regexp, id: string, a: AskView, env: Envelope) {
    !(env.payload.Message? && env.payload.eventID == id) && FilterMatches(re, a.filter, env, a.accountID)
  }

  predicate ReceiveMatches(re: Regexp, r: ReceiveView, env: Envelope) {
    FilterMatches(re, r.filter, env, r.accountID)
  }

  function Collecting(r: ReceiveView, env: Envelope): ReceiveView {
    if AtLimit(r.limit, r.collected) then r else r.(collected := r.collected + [env])
  }

  /** What routing one event does: the matching asks, served in the order of askIDs, leave the
      map, and their rows are resolved; the matching receives collect the event. */
  ghost predicate Routed(re: Regexp, v: View, v': View, env: Envelope, askIDs: seq<string>, receiveIDs: seq<string>,
                         faults: nat -> Fault) {
    && Distinct(askIDs) && (forall id :: id in askIDs <==> id in v.asks && AskMatches(re, id, v.asks[id], env))
    && Distinct(receiveIDs)
    && (forall id :: id in receiveIDs <==> id in v.receives && ReceiveMatches(re, v.receives[id], env))
    && v'.asks == Removed(v.asks, askIDs)
    && v'.receives == (map id | id in v.receives ::
                         if id in receiveIDs then Collecting(v.receives[id], env) else v.receives[id])
    && v'.rows == SetRows(v.rows, askIDs, Resolved, faults)
  }

  /** What a sweep does: the late asks, then the late receives, leave their maps, their rows
      are expired, and the prunable rows go. */
  ghost predicate Swept(v: View, v': View, now: int, askIDs: seq<string>, receiveIDs: seq<string>,
                        askFaults: nat -> Fault, receiveFaults: nat -> Fault, prune: Fault) {
    && Distinct(askIDs) && (forall id :: id in askIDs <==> id in v.asks && now > v.asks[id].timeoutAt)
    && Distinct(receiveIDs)
    && (forall id :: id in receiveIDs <==> id in v.receives && now > v.receives[id].timeoutAt)
    && v'.asks == Removed(v.asks, askIDs) && v'.receives == Removed(v.receives, receiveIDs)
    && v'.rows == SweptRows(v.rows, askIDs, receiveIDs, now, askFaults, receiveFaults, prune)
  }

  class CorrelationManager {
    var asks: map<string, ActiveAsk>
    var receives: map<string, ActiveReceive>
    var rows: map<string, CorrelationRow>

    constructor (rows: map<string, CorrelationRow>)
      ensures Valid() && asks == map[] && receives == map[] && this.rows == rows
    {
      asks, receives, this.rows := map[], map[], rows;
    }

    ghost function Look(): View
      reads this, receives.Values
    {
      View(map id | id in asks :: AskOf(asks[id]),
           map id | id in receives :: ReceiveOf(receives[id], receives[id].collected), rows)
    }

    /** Every listed handle is open, under its own id, and its row, if it still has one, is
        pending until the handle's deadline. */
    ghost predicate Valid()
      reads this, asks.Values, receives.Values
    {
      && (forall id :: id in asks ==> asks[id].id == id && asks[id].Open() && RowFits(id, asks[id].timeoutAt))
      && (forall id :: id in receives ==>
            receives[id].id == id && receives[id].Open() && RowFits(id, receives[id].timeoutAt))
      && asks.Keys !! receives.Keys
    }

    predicate RowFits(id: string, timeoutAt: int)
      reads this
    {
      id in rows ==> rows[id] == CorrelationRow(Pending, UnixMilli(timeoutAt))
    }

    /** The row is written. */
    method InsertRow(id: string, timeoutAt: int)
      requires Valid() && id !in asks && id !in receives
      modifies this`rows
      ensures Valid() && rows == old(rows)[id := CorrelationRow(Pending, UnixMilli(timeoutAt))]
      ensures Look() == old(Look()).(rows := rows)
    {
      rows := rows[id := CorrelationRow(Pending, UnixMilli(timeoutAt))];
    }

    /** The map entry of an ask. */
    method EnterAsk(id: string, accountID: string, filter: Option<CompiledNode>, timeoutAt: int) returns (a: ActiveAsk)
      requires Valid() && id !in asks && id !in receives && RowFits(id, timeoutAt)
      modifies this`asks
      ensures Valid() && fresh(a) && asks == old(asks)[id := a]
      ensures a.id == id && a.accountID == accountID && a.filter == filter && a.timeoutAt == timeoutAt
      ensures Look() == old(Look()).(asks := old(Look()).asks[id := AskView(accountID, filter, timeoutAt)])
    {
      a := new ActiveAsk(id, accountID, filter, timeoutAt);
      asks := asks[id := a];
    }

    method EnterReceive(id: string, accountID: string, filter: Option<CompiledNode>, timeoutAt: int, limit: int)
      returns (r: ActiveReceive)
      requires Valid() && id !in asks && id !in receives && RowFits(id, timeoutAt)
      modifies this`receives
      ensures Valid() && fresh(r) && receives == old(receives)[id := r]
      ensures r.id == id && r.accountID == accountID && r.filter == filter && r.timeoutAt == timeoutAt
      ensures r.limit == limit && r.collected == []
      ensures Look() == old(Look()).(
                receives := old(Look()).receives[id := ReceiveView(accountID, filter, timeoutAt, limit, [])])
    {
      r := new ActiveReceive(id, accountID, filter, timeoutAt, limit);
      receives := receives[id := r];
    }

    lemma LookRows()
      ensures Look().rows == rows
    {
    }

    /** INSERT, then the map entry. The timer is not started here. */
    method RegisterAsk(re: Regexp, req: AskRequest, id: string, timeoutAt: int, fault: Fault)
      returns (r: Result<ActiveAsk, ()>)
      requires Valid() && id !in asks && id !in receives
      modifies this
      ensures Valid()
      ensures r.Success? <==>
                NewCompiledFilter(re, Some(Strengthen(req))).Success? && id !in old(rows) && fault == NoFault
      ensures r.Success? ==>
                && fresh(r.value) && asks == old(asks)[id := r.value] && r.value.accountID == req.accountID
                && r.value.id == id && r.value.timeoutAt == timeoutAt
                && NewCompiledFilter(re, Some(Strengthen(req))) == Success(r.value.filter)
                && rows == old(rows)[id := CorrelationRow(Pending, UnixMilli(timeoutAt))]
      ensures r.Success? ==> Look() == AskRegistered(old(Look()), id, req.accountID, r.value.filter, timeoutAt)
      ensures receives == old(receives) && (r.Failure? ==> asks == old(asks))
      ensures r.Failure? ==>
                || rows == old(rows)
                || (fault == AfterWrite && id !in old(rows)
                    && rows == old(rows)[id := CorrelationRow(Pending, UnixMilli(timeoutAt))])
    {
      LookRows();
      hide Valid, Look;
      var strengthened := PrepareFilter(req);
      var filter := NewCompiledFilter(re, Some(strengthened));
      if filter.Failure? || id in rows || fault == BeforeWrite {
        return Failure(());
      }
      InsertRow(id, timeoutAt);
      if fault != NoFault {
        return Failure(());
      }
      var a := EnterAsk(id, req.accountID, filter.value, timeoutAt);
      return Success(a);
    }

    method RegisterReceive(re: Regexp, accountID: string, filter: FilterNode, limit: int, id: string, timeoutAt: int,
                           fault: Fault)
      returns (r: Result<ActiveReceive, ()>)
      requires Valid() && id !in asks && id !in receives
      modifies this
      ensures Valid()
      ensures r.Success? <==> NewCompiledFilter(re, Some(filter)).Success? && id !in old(rows) && fault == NoFault
      ensures r.Success? ==>
                && fresh(r.value) && receives == old(receives)[id := r.value] && r.value.accountID == accountID
                && r.value.id == id && r.value.timeoutAt == timeoutAt
                && r.value.limit == limit && r.value.collected == []
                && NewCompiledFilter(re, Some(filter)) == Success(r.value.filter)
                && rows == old(rows)[id := CorrelationRow(Pending, UnixMilli(timeoutAt))]
      ensures r.Success? ==>
                Look() == ReceiveRegistered(old(Look()), id, accountID, r.value.filter, timeoutAt, limit)
      ensures asks == old(asks) && (r.Failure? ==> receives == old(receives))
      ensures r.Failure? ==>
                || rows == old(rows)
                || (fault == AfterWrite && id !in old(rows)
                    && rows == old(rows)[id := CorrelationRow(Pending, UnixMilli(timeoutAt))])
    {
      LookRows();
      hide Valid, Look;
      var compiled := NewCompiledFilter(re, Some(filter));
      if compiled.Failure? || id in rows || fault == BeforeWrite {
        return Failure(());
      }
      InsertRow(id, timeoutAt);
      if fault != NoFault {
        return Failure(());
      }
      var active := EnterReceive(id, accountID, compiled.value, timeoutAt, limit);
      return Success(active);
    }

    predicate ListsAsk(a: ActiveAsk)
      reads this`asks
    {
      a.id in asks && asks[a.id] == a
    }

    predicate ListsReceive(r: ActiveReceive)
      reads this`receives
    {
      r.id in receives && receives[r.id] == r
    }

    /** once.Do in deliverToAsk: the send neither blocks nor meets a closed channel. */
    method DeliverToAsk(a: ActiveAsk, env: Envelope, fault: Fault)
      requires Valid() && (a.once || ListsAsk(a))
      modifies this`asks, this`rows, a
      ensures Valid()
      ensures old(a.once) ==>
                && asks == old(asks) && rows == old(rows)
                && a.sent == old(a.sent) && a.closed == old(a.closed) && a.done == old(a.done) && a.once
      ensures !old(a.once) ==>
                && a.sent == [env] && !a.closed && a.done && a.once && asks == old(asks) - {a.id}
                && rows == SetRowState(old(rows), a.id, Resolved, fault)
    {
      if a.once {
        return;
      }
      a.once := true;
      assert |a.sent| < 1 && !a.closed;
      a.sent := a.sent + [env];
      assert !a.done;
      a.done := true;
      asks := asks - {a.id};
      rows := SetRowState(rows, a.id, Resolved, fault);
    }

    /** once.Do in resolveAskTimeout: both closes are first closes. */
    method ResolveAskTimeout(a: ActiveAsk, fault: Fault)
      requires Valid() && (a.once || ListsAsk(a))
      modifies this`asks, this`rows, a
      ensures Valid()
      ensures old(a.once) ==>
                && asks == old(asks) && rows == old(rows)
                && a.sent == old(a.sent) && a.closed == old(a.closed) && a.done == old(a.done) && a.once
      ensures !old(a.once) ==>
                && a.sent == [] && a.closed && a.done && a.once && asks == old(asks) - {a.id}
                && rows == SetRowState(old(rows), a.id, Expired, fault)
    {
      if a.once {
        return;
      }
      a.once := true;
      assert !a.closed;
      a.closed := true;
      assert !a.done;
      a.done := true;
      asks := asks - {a.id};
      rows := SetRowState(rows, a.id, Expired, fault);
    }

    /** once.Do in resolveReceive: sends a copy of what has been collected. */
    method ResolveReceive(r: ActiveReceive, state: RowState, fault: Fault)
      requires Valid() && (r.once || ListsReceive(r))
      modifies this`receives, this`rows, r
      ensures Valid() && r.collected == old(r.collected)
      ensures old(r.once) ==>
                receives == old(receives) && rows == old(rows) && r.sent == old(r.sent) && r.done == old(r.done)
                    && r.once
      ensures !old(r.once) ==>
                && r.sent == [old(r.collected)] && r.done && r.once && receives == old(receives) - {r.id}
                && rows == SetRowState(old(rows), r.id, state, fault)
    {
      if r.once {
        return;
      }
      r.once := true;
      var events := r.collected;
      assert |r.sent| < 1;
      r.sent := r.sent + [events];
      assert !r.done;
      r.done := true;
      receives := receives - {r.id};
      rows := SetRowState(rows, r.id, state, fault);
    }

    /** found lists exactly the chosen handles of the map, each once. */
    ghost predicate GatheredAsks(found: seq<ActiveAsk>, chosen: ActiveAsk -> bool)
      reads this`asks
    {
      && (forall i :: 0 <= i < |found| ==> ListsAsk(found[i]) && chosen(found[i]))
      && (forall id :: id in asks && chosen(asks[id]) ==> asks[id] in found)
      && forall i, j :: 0 <= i < j < |found| ==> found[i].id != found[j].id
    }

    method GatherAsks(chosen: ActiveAsk -> bool) returns (found: seq<ActiveAsk>)
      requires Valid()
      ensures GatheredAsks(found, chosen)
    {
      var todo := asks.Keys;
      found := [];
      while todo != {}
        invariant todo <= asks.Keys
        invariant forall a :: a in found <==> ListsAsk(a) && a.id !in todo && chosen(a)
        invariant forall i, j :: 0 <= i < j < |found| ==> found[i].id != found[j].id
        decreases |todo|
      {
        var id :| id in todo;
        todo := todo - {id};
        if chosen(asks[id]) {
          found := found + [asks[id]];
        }
      }
    }

    ghost predicate GatheredReceives(found: seq<ActiveReceive>, chosen: ActiveReceive -> bool)
      reads this`receives
    {
      && (forall i :: 0 <= i < |found| ==> ListsReceive(found[i]) && chosen(found[i]))
      && (forall id :: id in receives && chosen(receives[id]) ==> receives[id] in found)
      && forall i, j :: 0 <= i < j < |found| ==> found[i].id != found[j].id
    }

    method GatherReceives(chosen: ActiveReceive -> bool) returns (found: seq<ActiveReceive>)
      requires Valid()
      ensures GatheredReceives(found, chosen)
    {
      var todo := receives.Keys;
      found := [];
      while todo != {}
        invariant todo <= receives.Keys
        invariant forall r :: r in found <==> ListsReceive(r) && r.id !in todo && chosen(r)
        invariant forall i, j :: 0 <= i < j < |found| ==> found[i].id != found[j].id
        decreases |todo|
      {
        var id :| id in todo;
        todo := todo - {id};
        if chosen(receives[id]) {
          found := found + [receives[id]];
        }
      }
    }

    /** The loop over asks to complete: the first i are completed with this outcome, unlisted
        and their rows updated; the others are open. */
    ghost predicate AsksCompleted(found: seq<ActiveAsk>, i: nat, outcome: Option<Envelope>, state: RowState,
                                  faults: nat -> Fault,
                                  asksBefore: map<string, ActiveAsk>, rowsBefore: map<string, CorrelationRow>)
      requires i <= |found|
      reads this, found
    {
      && (forall j :: i <= j < |found| ==> found[j].Open())
      && (forall j :: 0 <= j < i ==> found[j].Completed(outcome))
      && asks == Removed(asksBefore, IDs(AskID, found[..i]))
      && rows == SetRows(rowsBefore, IDs(AskID, found[..i]), state, faults)
    }

    /** Completing the next ask, by delivery or by timeout. */
    method CompleteNext(found: seq<ActiveAsk>, i: nat, outcome: Option<Envelope>, state: RowState, faults: nat -> Fault,
                        ghost asksBefore: map<string, ActiveAsk>, ghost rowsBefore: map<string, CorrelationRow>)
      requires i < |found| && Valid() && state == (if outcome.Some? then Resolved else Expired)
      requires forall j, k :: 0 <= j < k < |found| ==> found[j].id != found[k].id
      requires found[i].id in asksBefore && asksBefore[found[i].id] == found[i]
      requires AsksCompleted(found, i, outcome, state, faults, asksBefore, rowsBefore)
      modifies this`asks, this`rows, found[i]
      ensures Valid() && AsksCompleted(found, i + 1, outcome, state, faults, asksBefore, rowsBefore)
    {
      hide Valid, SetRows, SetRowState, Removed, IDs;
      SettledOne(asksBefore, rowsBefore, IDs(AskID, found[..i]), found[i].id, state, faults);
      IDsSnoc(AskID, found, i);
      StillListed(AskID, asksBefore, found, i);
      if outcome.Some? {
        DeliverToAsk(found[i], outcome.value, faults(i));
      } else {
        ResolveAskTimeout(found[i], faults(i));
      }
    }

    method CompleteAsks(found: seq<ActiveAsk>, outcome: Option<Envelope>, state: RowState, faults: nat -> Fault)
      requires Valid() && state == (if outcome.Some? then Resolved else Expired)
      requires forall a :: a in found ==> ListsAsk(a)
      requires forall i, j :: 0 <= i < j < |found| ==> found[i].id != found[j].id
      modifies this`asks, this`rows, found
      ensures Valid() && AsksCompleted(found, |found|, outcome, state, faults, old(asks), old(rows))
    {
      assert forall a :: a in found ==> a.Open() && a.id in asks && asks[a.id] == a;
      IDsEmpty(AskID, found);
      NothingSettled(asks, rows, state, faults);
      assert AsksCompleted(found, 0, outcome, state, faults, asks, rows);
      hide Valid, ListsAsk, AsksCompleted;
      for i := 0 to |found|
        invariant Valid() && AsksCompleted(found, i, outcome, state, faults, old(asks), old(rows))
      {
        CompleteNext(found, i, outcome, state, faults, old(asks), old(rows));
      }
    }

    /** The same for receives, each completed with what it had collected. */
    ghost predicate ReceivesExpired(found: seq<ActiveReceive>, i: nat, collected: seq<seq<Envelope>>,
                                    faults: nat -> Fault,
                                    receivesBefore: map<string, ActiveReceive>, rowsBefore: map<string, CorrelationRow>)
      requires i <= |found| == |collected|
      reads this, found
    {
      && (forall j :: i <= j < |found| ==> found[j].Open() && found[j].collected == collected[j])
      && (forall j :: 0 <= j < i ==> found[j].Completed(collected[j]))
      && receives == Removed(receivesBefore, IDs(ReceiveID, found[..i]))
      && rows == SetRows(rowsBefore, IDs(ReceiveID, found[..i]), Expired, faults)
    }

    method ExpireNext(found: seq<ActiveReceive>, i: nat, ghost collected: seq<seq<Envelope>>, faults: nat -> Fault,
                      ghost receivesBefore: map<string, ActiveReceive>, ghost rowsBefore: map<string, CorrelationRow>)
      requires i < |found| == |collected| && Valid()
      requires forall j, k :: 0 <= j < k < |found| ==> found[j].id != found[k].id
      requires found[i].id in receivesBefore && receivesBefore[found[i].id] == found[i]
      requires ReceivesExpired(found, i, collected, faults, receivesBefore, rowsBefore)
      modifies this`receives, this`rows, found[i]
      ensures Valid() && ReceivesExpired(found, i + 1, collected, faults, receivesBefore, rowsBefore)
    {
      hide Valid, SetRows, SetRowState, Removed, IDs;
      SettledOne(receivesBefore, rowsBefore, IDs(ReceiveID, found[..i]), found[i].id, Expired, faults);
      IDsSnoc(ReceiveID, found, i);
      StillListed(ReceiveID, receivesBefore, found, i);
      ResolveReceive(found[i], Expired, faults(i));
    }

    method ExpireReceives(found: seq<ActiveReceive>, ghost collected: seq<seq<Envelope>>, faults: nat -> Fault)
      requires Valid() && forall r :: r in found ==> ListsReceive(r)
      requires forall i, j :: 0 <= i < j < |found| ==> found[i].id != found[j].id
      requires |collected| == |found| && forall j :: 0 <= j < |found| ==> found[j].collected == collected[j]
      modifies this`receives, this`rows, found
      ensures Valid() && ReceivesExpired(found, |found|, collected, faults, old(receives), old(rows))
    {
      assert forall r :: r in found ==> r.Open() && r.id in receives && receives[r.id] == r;
      IDsEmpty(ReceiveID, found);
      NothingSettled(receives, rows, Expired, faults);
      assert ReceivesExpired(found, 0, collected, faults, receives, rows);
      hide Valid, ListsReceive, ReceivesExpired;
      for i := 0 to |found|
        invariant Valid() && ReceivesExpired(found, i, collected, faults, old(receives), old(rows))
      {
        ExpireNext(found, i, collected, faults, old(receives), old(rows));
      }
    }

    method CollectAll(found: seq<ActiveReceive>, env: Envelope) returns (full: seq<ActiveReceive>)
      requires forall i, j :: 0 <= i < j < |found| ==> found[i] != found[j]
      modifies found
      ensures forall r :: r in found ==>
                && r.collected ==
                     (if AtLimit(r.limit, old(r.collected)) then old(r.collected) else old(r.collected) + [env])
                && r.sent == old(r.sent) && r.done == old(r.done) && r.once == old(r.once)
      ensures forall r :: r in full <==>
                r in found && !AtLimit(r.limit, old(r.collected)) && AtLimit(r.limit, r.collected)
    {
      full := [];
      for i := 0 to |found|
        invariant forall j :: 0 <= j < |found| ==>
                    found[j].sent == old(found[j].sent) && found[j].done == old(found[j].done)
                        && found[j].once == old(found[j].once)
        invariant forall j :: i <= j < |found| ==> found[j].collected == old(found[j].collected)
        invariant forall j :: 0 <= j < i ==>
                    found[j].collected ==
                    if AtLimit(found[j].limit, old(found[j].collected)) then old(found[j].collected)
                    else old(found[j].collected) + [env]
        invariant forall r :: r in full <==>
                    r in found[..i] && !AtLimit(r.limit, old(r.collected)) && AtLimit(r.limit, r.collected)
      {
        var atLimit := found[i].Collect(env);
        if atLimit {
          full := full + [found[i]];
        }
      }
    }

    /** The chosen asks are completed and unlisted; the others are listed and open. */
    ghost predicate AsksRouted(before: map<string, ActiveAsk>, chosen: ActiveAsk -> bool, outcome: Option<Envelope>)
      reads this`asks, before.Values
    {
      && (forall id :: id in asks <==> id in before && !chosen(before[id]))
      && (forall id :: id in before ==>
            var a := before[id];
            if chosen(a) then a.Completed(outcome) else asks[id] == a && a.Open())
    }

    /** What each listed receive has collected. */
    ghost function Collected(): map<string, seq<Envelope>>
      reads this`receives, receives.Values
    {
      map id | id in receives :: receives[id].collected
    }

    /** The receives that want the event have collected it, up to their limits. */
    ghost predicate ReceivesRouted(was: map<string, seq<Envelope>>, wants: ActiveReceive -> bool, env: Envelope)
      reads this`receives, receives.Values
    {
      && was.Keys == receives.Keys
      && forall id :: id in receives ==>
           var r := receives[id];
           r.collected == if wants(r) && !AtLimit(r.limit, was[id]) then was[id] + [env] else was[id]
    }

    ghost predicate ReachesLimit(was: map<string, seq<Envelope>>, wants: ActiveReceive -> bool, r: ActiveReceive)
      reads r
    {
      r.id in was && wants(r) && !AtLimit(r.limit, was[r.id]) && AtLimit(r.limit, r.collected)
    }

    /** The chosen receives are completed with what they had collected, and unlisted. */
    ghost predicate ReceivesClosed(before: map<string, ActiveReceive>, was: map<string, seq<Envelope>>,
                                   chosen: ActiveReceive -> bool)
      reads this`receives, before.Values
    {
      && (forall id :: id in receives <==> id in before && !chosen(before[id]))
      && (forall id :: id in before ==>
            var r := before[id];
            && id in was
            && if chosen(r) then r.Completed(was[id])
               else receives[id] == r && r.Open() && r.collected == was[id])
    }

    lemma AsksRoutedBy(found: seq<ActiveAsk>, before: map<string, ActiveAsk>, chosen: ActiveAsk -> bool,
                       outcome: Option<Envelope>)
      requires forall i :: 0 <= i < |found| ==>
                 found[i].id in before && before[found[i].id] == found[i] && chosen(found[i])
                     && found[i].Completed(outcome)
      requires forall id :: id in before && chosen(before[id]) ==> before[id] in found
      requires forall id :: id in before ==> before[id].id == id && (!chosen(before[id]) ==> before[id].Open())
      requires asks == Removed(before, IDs(AskID, found))
      ensures AsksRouted(before, chosen, outcome)
    {
      forall id ensures id in IDs(AskID, found) <==> id in before && chosen(before[id]) {
        IDsMember(AskID, found, id);
      }
      hide IDs;
    }

    lemma ReceivesClosedBy(found: seq<ActiveReceive>, before: map<string, ActiveReceive>,
                           was: map<string, seq<Envelope>>, chosen: ActiveReceive -> bool)
      requires forall i :: 0 <= i < |found| ==>
                 found[i].id in before && before[found[i].id] == found[i] && chosen(found[i])
                     && found[i].id in was && found[i].Completed(was[found[i].id])
      requires forall id :: id in before && chosen(before[id]) ==> before[id] in found
      requires forall id :: id in before ==>
                 before[id].id == id && id in was
                     && (!chosen(before[id]) ==> before[id].Open() && before[id].collected == was[id])
      requires receives == Removed(before, IDs(ReceiveID, found))
      ensures ReceivesClosed(before, was, chosen)
    {
      forall id ensures id in IDs(ReceiveID, found) <==> id in before && chosen(before[id]) {
        IDsMember(ReceiveID, found, id);
      }
      hide IDs;
    }

    /** The rows of the chosen asks have the state, unless an update failed; the others are
        unchanged. */
    ghost predicate RowsRouted(rowsBefore: map<string, CorrelationRow>, before: map<string, ActiveAsk>,
                               chosen: ActiveAsk -> bool, state: RowState, faults: nat -> Fault)
      reads this`rows
    {
      && rows.Keys == rowsBefore.Keys
      && forall id :: id in rows ==>
           if id in before && chosen(before[id]) then NoFaults(faults) ==> rows[id].state == state
           else rows[id] == rowsBefore[id]
    }

    lemma RowsRoutedBy(found: seq<ActiveAsk>, rowsBefore: map<string, CorrelationRow>, before: map<string, ActiveAsk>,
                       chosen: ActiveAsk -> bool, state: RowState, faults: nat -> Fault)
      requires forall id :: id in IDs(AskID, found) <==> id in before && chosen(before[id])
      requires rows == SetRows(rowsBefore, IDs(AskID, found), state, faults)
      ensures RowsRouted(rowsBefore, before, chosen, state, faults)
    {
      SetRowsEffect(rowsBefore, IDs(AskID, found), state, faults);
      hide SetRows, IDs;
    }

    /** The gathered asks are those chosen. */
    lemma GatheredIDs(found: seq<ActiveAsk>, chosen: ActiveAsk -> bool, id: string)
      requires GatheredAsks(found, chosen) && forall i :: i in asks ==> asks[i].id == i
      ensures id in IDs(AskID, found) <==> id in asks && chosen(asks[id])
    {
      IDsMember(AskID, found, id);
    }

    lemma GatheredReceiveIDs(found: seq<ActiveReceive>, chosen: ActiveReceive -> bool, id: string)
      requires GatheredReceives(found, chosen) && forall i :: i in receives ==> receives[i].id == i
      ensures id in IDs(ReceiveID, found) <==> id in receives && chosen(receives[id])
    {
      IDsMember(ReceiveID, found, id);
    }

    /** Completes the gathered asks; of the others nothing changes. */
    method CompleteMatched(matched: seq<ActiveAsk>, ghost chosen: ActiveAsk -> bool, outcome: Option<Envelope>,
                           state: RowState, faults: nat -> Fault)
      requires Valid() && state == (if outcome.Some? then Resolved else Expired)
      requires GatheredAsks(matched, chosen)
      modifies this`asks, this`rows, matched
      ensures Valid() && AsksRouted(old(asks), chosen, outcome)
      ensures rows == SetRows(old(rows), IDs(AskID, matched), state, faults)
    {
      hide SetRows, IDs, AsksRouted;
      ghost var before := asks;
      assert forall id :: id in asks ==> asks[id].id == id && asks[id].Open();
      assert forall a :: a in matched ==> ListsAsk(a);
      hide Valid;
      CompleteAsks(matched, outcome, state, faults);
      assert matched[..|matched|] == matched;
      AsksRoutedBy(matched, before, chosen, outcome);
    }

    /** Hands the event to the gathered receives. */
    method CollectMatched(matched: seq<ActiveReceive>, ghost chosen: ActiveReceive -> bool, env: Envelope)
      returns (full: seq<ActiveReceive>)
      requires Valid()
      requires GatheredReceives(matched, chosen)
      modifies matched
      ensures Valid() && ReceivesRouted(old(Collected()), chosen, env)
      ensures forall r :: r in full <==> ListsReceive(r) && ReachesLimit(old(Collected()), chosen, r)
    {
      assert forall id :: id in receives && chosen(receives[id]) ==> receives[id] in matched;
      assert forall r :: r in matched ==> r in receives.Values;
      hide AtLimit;
      full := CollectAll(matched, env);
    }

    lemma ValidIDs()
      requires Valid()
      ensures (forall id :: id in asks ==> asks[id].id == id) && (forall id :: id in receives ==> receives[id].id == id)
    {
    }

    /** Delivers to the gathered asks, then to the gathered receives. Returns the receives for
        which a limit resolver is launched. */
    method Deliver(env: Envelope, toAsks: seq<ActiveAsk>, ghost wantsAsk: ActiveAsk -> bool,
                   toReceives: seq<ActiveReceive>, ghost wantsReceive: ActiveReceive -> bool, faults: nat -> Fault)
      returns (full: seq<ActiveReceive>)
      requires Valid()
      requires GatheredAsks(toAsks, wantsAsk) && GatheredReceives(toReceives, wantsReceive)
      modifies this`asks, this`rows, toAsks, toReceives
      ensures Valid() && AsksRouted(old(asks), wantsAsk, Some(env))
          && ReceivesRouted(old(Collected()), wantsReceive, env)
      ensures RowsRouted(old(rows), old(asks), wantsAsk, Resolved, faults)
      ensures rows == SetRows(old(rows), IDs(AskID, toAsks), Resolved, faults)
      ensures forall r :: r in full <==> ListsReceive(r) && ReachesLimit(old(Collected()), wantsReceive, r)
    {
      hide Valid, SetRows, IDs, AsksRouted, ReceivesRouted, Collected, ReachesLimit, GatheredAsks, GatheredReceives,
           ListsReceive;
      forall id ensures id in IDs(AskID, toAsks) <==> id in asks && wantsAsk(asks[id]) {
        ValidIDs();
        GatheredIDs(toAsks, wantsAsk, id);
      }
      CompleteMatched(toAsks, wantsAsk, Some(env), Resolved, faults);
      RowsRoutedBy(toAsks, old(rows), old(asks), wantsAsk, Resolved, faults);
      hide RowsRouted;
      full := CollectMatched(toReceives, wantsReceive, env);
    }

    lemma AsksViewed(re: Regexp, before: map<string, AskView>, asksBefore: map<string, ActiveAsk>, env: Envelope,
                     askIDs: seq<string>)
      requires before == map id | id in asksBefore :: AskOf(asksBefore[id])
      requires forall id :: id in asksBefore ==> asksBefore[id].id == id
      requires AsksRouted(asksBefore, AskWants(re, env), Some(env))
      requires forall id :: id in askIDs <==> id in asksBefore && AskWants(re, env)(asksBefore[id])
      ensures forall id :: id in askIDs <==> id in before && AskMatches(re, id, before[id], env)
      ensures Look().asks == Removed(before, askIDs)
    {
    }

    lemma ReceivesViewed(re: Regexp, before: map<string, ReceiveView>, was: map<string, seq<Envelope>>, env: Envelope,
                         receiveIDs: seq<string>)
      requires before.Keys == was.Keys == receives.Keys
      requires forall id :: id in receives ==> before[id] == ReceiveOf(receives[id], was[id])
      requires ReceivesRouted(was, ReceiveWants(re, env), env)
      requires forall id :: id in receiveIDs <==> id in receives && ReceiveWants(re, env)(receives[id])
      ensures forall id :: id in receiveIDs <==> id in before && ReceiveMatches(re, before[id], env)
      ensures Look().receives ==
              map id | id in before :: if id in receiveIDs then Collecting(before[id], env) else before[id]
    {
      hide AtLimit;
    }

    /** The values at this moment. */
    lemma LookNow()
      ensures Look().asks == (map id | id in asks :: AskOf(asks[id])) && Look().rows == rows
      ensures Look().receives.Keys == Collected().Keys == receives.Keys
      ensures forall id :: id in receives ==> Look().receives[id] == ReceiveOf(receives[id], Collected()[id])
    {
    }

    /** What the objects went through, on the values. */
    lemma RoutedBy(re: Regexp, before: View, asksBefore: map<string, ActiveAsk>, was: map<string, seq<Envelope>>,
                   env: Envelope, askIDs: seq<string>, receiveIDs: seq<string>, faults: nat -> Fault)
      requires before.asks == map id | id in asksBefore :: AskOf(asksBefore[id])
      requires before.receives.Keys == was.Keys == receives.Keys
      requires forall id :: id in receives ==> before.receives[id] == ReceiveOf(receives[id], was[id])
      requires forall id :: id in asksBefore ==> asksBefore[id].id == id
      requires AsksRouted(asksBefore, AskWants(re, env), Some(env)) && ReceivesRouted(was, ReceiveWants(re, env), env)
      requires Distinct(askIDs) && Distinct(receiveIDs)
      requires forall id :: id in askIDs <==> id in asksBefore && AskWants(re, env)(asksBefore[id])
      requires forall id :: id in receiveIDs <==> id in receives && ReceiveWants(re, env)(receives[id])
      requires rows == SetRows(before.rows, askIDs, Resolved, faults)
      ensures Routed(re, before, Look(), env, askIDs, receiveIDs, faults)
    {
      AsksViewed(re, before.asks, asksBefore, env, askIDs);
      ReceivesViewed(re, before.receives, was, env, receiveIDs);
      LookNow();
      hide SetRows, AtLimit, Distinct, AsksRouted, ReceivesRouted, Look, Collected, AskMatches, ReceiveMatches,
           Collecting;
    }

    lemma GatheredAll(found: seq<ActiveAsk>, chosen: ActiveAsk -> bool)
      requires Valid() && GatheredAsks(found, chosen)
      ensures Distinct(IDs(AskID, found))
      ensures forall id :: id in IDs(AskID, found) <==> id in asks && chosen(asks[id])
    {
      ValidIDs();
      forall id ensures id in IDs(AskID, found) <==> id in asks && chosen(asks[id]) {
        GatheredIDs(found, chosen, id);
      }
      hide Valid;
    }

    lemma GatheredAllReceives(found: seq<ActiveReceive>, chosen: ActiveReceive -> bool)
      requires Valid() && GatheredReceives(found, chosen)
      ensures Distinct(IDs(ReceiveID, found))
      ensures forall id :: id in IDs(ReceiveID, found) <==> id in receives && chosen(receives[id])
    {
      ValidIDs();
      forall id ensures id in IDs(ReceiveID, found) <==> id in receives && chosen(receives[id]) {
        GatheredReceiveIDs(found, chosen, id);
      }
      hide Valid;
    }

    /** Routes one event: every listed ask that wants it gets it and is completed, with its
        row, every listed receive that wants it collects it, and nothing else changes. */
    method HandleEvent(re: Regexp, env: Envelope, faults: nat -> Fault)
      returns (full: seq<ActiveReceive>, ghost askIDs: seq<string>, ghost receiveIDs: seq<string>)
      requires Valid()
      modifies this`asks, this`rows, asks.Values, receives.Values
      ensures Valid()
      ensures AsksRouted(old(asks), AskWants(re, env), Some(env))
      ensures RowsRouted(old(rows), old(asks), AskWants(re, env), Resolved, faults)
      ensures ReceivesRouted(old(Collected()), ReceiveWants(re, env), env)
      ensures forall r :: r in full <==> ListsReceive(r) && ReachesLimit(old(Collected()), ReceiveWants(re, env), r)
      ensures Routed(re, old(Look()), Look(), env, askIDs, receiveIDs, faults)
    {
      hide AskWants, ReceiveWants, Valid, AsksRouted, RowsRouted, ReceivesRouted, Collected, ReachesLimit, Routed,
           SetRows, Look, Distinct, IDs;
      var matchedAsks := GatherAsks(AskWants(re, env));
      var matchedReceives := GatherReceives(ReceiveWants(re, env));
      assert forall a :: a in matchedAsks ==> a in asks.Values;
      assert forall r :: r in matchedReceives ==> r in receives.Values;
      askIDs, receiveIDs := IDs(AskID, matchedAsks), IDs(ReceiveID, matchedReceives);
      GatheredAll(matchedAsks, AskWants(re, env));
      GatheredAllReceives(matchedReceives, ReceiveWants(re, env));
      ghost var before, was, asksBefore := Look(), Collected(), asks;
      LookNow();
      ValidIDs();
      hide GatheredAsks, GatheredReceives, ListsReceive;
      full := Deliver(env, matchedAsks, AskWants(re, env), matchedReceives, ReceiveWants(re, env), faults);
      RoutedBy(re, before, asksBefore, was, env, askIDs, receiveIDs, faults);
    }

    /** Expires the gathered receives; of the others nothing changes. */
    method ExpireMatched(matched: seq<ActiveReceive>, ghost chosen: ActiveReceive -> bool, faults: nat -> Fault)
      requires Valid()
      requires GatheredReceives(matched, chosen)
      modifies this`receives, this`rows, matched
      ensures Valid() && ReceivesClosed(old(receives), old(Collected()), chosen)
      ensures rows == SetRows(old(rows), IDs(ReceiveID, matched), Expired, faults)
    {
      hide SetRows, IDs, ReceivesClosed;
      ghost var before, was := receives, Collected();
      assert forall id :: id in receives ==> receives[id].id == id && receives[id].Open();
      assert forall r :: r in matched ==> ListsReceive(r);
      ghost var collected := seq(|matched|, i requires 0 <= i < |matched| reads matched => matched[i].collected);
      assert forall i :: 0 <= i < |matched| ==> matched[i].id in was && was[matched[i].id] == collected[i];
      hide Valid, Collected;
      ExpireReceives(matched, collected, faults);
      assert matched[..|matched|] == matched;
      ReceivesClosedBy(matched, before, was, chosen);
    }

    method Expire(now: int, lateAsks: seq<ActiveAsk>, lateReceives: seq<ActiveReceive>,
                  askFaults: nat -> Fault, receiveFaults: nat -> Fault, prune: Fault)
      requires Valid() && GatheredAsks(lateAsks, LateAsk(now)) && GatheredReceives(lateReceives, LateReceive(now))
      modifies this, lateAsks, lateReceives
      ensures Valid()
      ensures AsksRouted(old(asks), LateAsk(now), None)
      ensures ReceivesClosed(old(receives), old(Collected()), LateReceive(now))
      ensures rows == SweptRows(old(rows), IDs(AskID, lateAsks), IDs(ReceiveID, lateReceives), now, askFaults,
          receiveFaults, prune)
    {
      hide Valid, SetRows, IDs, AsksRouted, ReceivesClosed, Collected, GatheredAsks, GatheredReceives,
           LateAsk, LateReceive;
      CompleteMatched(lateAsks, LateAsk(now), None, Expired, askFaults);
      ExpireMatched(lateReceives, LateReceive(now), receiveFaults);
      if prune != BeforeWrite {
        PruneRows(now);
      }
    }

    method PruneRows(now: int)
      requires Valid()
      modifies this`rows
      ensures Valid() && rows == Pruned(old(rows), UnixMilli(now))
    {
      rows := Pruned(rows, UnixMilli(now));
    }

    /** The row of a listed handle that is not late is not prunable. */
    lemma TimelyRowStays(now: int, id: string)
      requires Valid() && id in rows && (id in asks || id in receives)
      requires !(id in asks && now > asks[id].timeoutAt) && !(id in receives && now > receives[id].timeoutAt)
      ensures !Prunable(rows[id], UnixMilli(now))
    {
    }

    lemma SweptIDs(lateAsks: seq<ActiveAsk>, lateReceives: seq<ActiveReceive>, now: int, id: string)
      requires Valid() && GatheredAsks(lateAsks, LateAsk(now)) && GatheredReceives(lateReceives, LateReceive(now))
      ensures id in IDs(AskID, lateAsks) <==> id in asks && now > asks[id].timeoutAt
      ensures id in IDs(ReceiveID, lateReceives) <==> id in receives && now > receives[id].timeoutAt
    {
      ValidIDs();
      hide Valid, GatheredAsks, GatheredReceives;
      GatheredIDs(lateAsks, LateAsk(now), id);
      GatheredReceiveIDs(lateReceives, LateReceive(now), id);
    }

    /** What will become of the rows. */
    lemma SweptRowsFit(now: int, lateAsks: seq<ActiveAsk>, lateReceives: seq<ActiveReceive>,
                       askFaults: nat -> Fault, receiveFaults: nat -> Fault, prune: Fault)
      requires Valid() && GatheredAsks(lateAsks, LateAsk(now)) && GatheredReceives(lateReceives, LateReceive(now))
      requires NoFaults(askFaults) && NoFaults(receiveFaults)
      ensures RowsSwept(SweptRows(rows, IDs(AskID, lateAsks), IDs(ReceiveID, lateReceives), now, askFaults,
                                  receiveFaults, prune),
                        rows, asks, receives, now, prune)
    {
      var askIDs, receiveIDs := IDs(AskID, lateAsks), IDs(ReceiveID, lateReceives);
      var after := SweptRows(rows, askIDs, receiveIDs, now, askFaults, receiveFaults, prune);
      forall id
        ensures id in after ==> id in rows
        ensures id in rows ==> RowSwept(after, rows, asks, receives, now, prune, id)
      {
        SweptIDs(lateAsks, lateReceives, now, id);
        SweptRowsEffect(rows, askIDs, receiveIDs, now, askFaults, receiveFaults, prune, id);
        if id in rows && (id in asks || id in receives)
           && !(id in asks && now > asks[id].timeoutAt) && !(id in receives && now > receives[id].timeoutAt) {
          TimelyRowStays(now, id);
        }
        hide Valid, GatheredAsks, GatheredReceives, IDs, SweptRows, Prunable, NoFaults;
      }
    }

    lemma SweptBy(before: View, asksBefore: map<string, ActiveAsk>, receivesBefore: map<string, ActiveReceive>,
                  was: map<string, seq<Envelope>>, now: int, askIDs: seq<string>, receiveIDs: seq<string>,
                  askFaults: nat -> Fault, receiveFaults: nat -> Fault, prune: Fault)
      requires before.asks == map id | id in asksBefore :: AskOf(asksBefore[id])
      requires before.receives.Keys == was.Keys == receivesBefore.Keys
      requires forall id :: id in receivesBefore ==> before.receives[id] == ReceiveOf(receivesBefore[id], was[id])
      requires AsksRouted(asksBefore, LateAsk(now), None) && ReceivesClosed(receivesBefore, was, LateReceive(now))
      requires Distinct(askIDs) && Distinct(receiveIDs)
      requires forall id :: id in askIDs <==> id in asksBefore && LateAsk(now)(asksBefore[id])
      requires forall id :: id in receiveIDs <==> id in receivesBefore && LateReceive(now)(receivesBefore[id])
      requires rows == SweptRows(before.rows, askIDs, receiveIDs, now, askFaults, receiveFaults, prune)
      ensures Swept(before, Look(), now, askIDs, receiveIDs, askFaults, receiveFaults, prune)
    {
      hide SweptRows, Distinct;
    }

    /** The sweep: expires every listed handle whose deadline has passed, then deletes the
        pending rows that have timed out. No row of a handle listed at its start is deleted
        if the state updates succeed. */
    method SweepExpired(now: int, askFaults: nat -> Fault, receiveFaults: nat -> Fault, prune: Fault)
      returns (ghost askIDs: seq<string>, ghost receiveIDs: seq<string>)
      requires Valid()
      modifies this, asks.Values, receives.Values
      ensures Valid()
      ensures AsksRouted(old(asks), LateAsk(now), None)
      ensures ReceivesClosed(old(receives), old(Collected()), LateReceive(now))
      ensures NoFaults(askFaults) && NoFaults(receiveFaults) ==>
                RowsSwept(rows, old(rows), old(asks), old(receives), now, prune)
      ensures Swept(old(Look()), Look(), now, askIDs, receiveIDs, askFaults, receiveFaults, prune)
    {
      hide LateAsk, LateReceive, Valid, AsksRouted, ReceivesClosed, Collected, SweptRows, NoFaults, RowsSwept, Look,
           Distinct, IDs, Swept;
      var expiredAsks := GatherAsks(LateAsk(now));
      var expiredReceives := GatherReceives(LateReceive(now));
      assert forall a :: a in expiredAsks ==> a in asks.Values;
      assert forall r :: r in expiredReceives ==> r in receives.Values;
      askIDs, receiveIDs := IDs(AskID, expiredAsks), IDs(ReceiveID, expiredReceives);
      GatheredAll(expiredAsks, LateAsk(now));
      GatheredAllReceives(expiredReceives, LateReceive(now));
      ghost var before, was, asksBefore, receivesBefore := Look(), Collected(), asks, receives;
      LookNow();
      hide GatheredAsks, GatheredReceives;
      if NoFaults(askFaults) && NoFaults(receiveFaults) {
        SweptRowsFit(now, expiredAsks, expiredReceives, askFaults, receiveFaults, prune);
      }
      Expire(now, expiredAsks, expiredReceives, askFaults, receiveFaults, prune);
      SweptBy(before, asksBefore, receivesBefore, was, now, askIDs, receiveIDs, askFaults, receiveFaults, prune);
    }
  }
}
