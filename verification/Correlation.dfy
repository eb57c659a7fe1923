/** The correlation manager (internal/correlation) as a transition system: registration,
    the six dispatch goroutines over the bus channels, per-handle timers, limit resolvers,
    the periodic sweep and the store, interleaved at their lock, channel and store
    operations. Times are in nanoseconds. */
module Correlation {
  import opened Wrappers
  import opened Events
  import opened Filter
  import opened Bus
  import opened QueueStore

  datatype Kind = Ask | Receive

  datatype RowState = Pending | Resolved | Expired

  /** A correlation_state row; timeoutAt is in milliseconds. */
  datatype CorrelationRow = CorrelationRow(state: RowState, timeoutAt: int)

  /** What completes a handle: a matched event or the timeout for an ask, the end of the
      window for a receive. */
  datatype Outcome = Matched(env: Envelope) | TimedOut | Window(final: RowState)

  /** Steps of the function passed to once.Do. */
  datatype Stage = Snapshot | Emit | CloseDone | Remove | Update

  datatype Once =
    | Fresh
    | Running(outcome: Outcome, stage: Stage, events: seq<Envelope>)
    | Finished(outcome: Outcome)

  /** The per-handle timeout goroutine. */
  datatype Timer = NotStarted | Armed | Firing | Gone

  /** The capacity-1 result channel: what was ever sent, how much was received, closes. */
  datatype ResultChan = ResultChan(sent: seq<seq<Envelope>>, taken: nat, closes: nat)

  datatype Handle = Handle(
    kind: Kind,
    accountID: string,
    filter: Option<CompiledNode>,
    deadline: int,
    limit: int,                   // at most 0: unlimited
    published: bool,              // has been put in the manager's map
    once: Once,
    result: ResultChan,
    doneCloses: nat,
    timer: Timer,
    collected: seq<Envelope>,
    launched: nat,                // limit resolvers ever started
    resolvers: nat,               // limit resolvers still running
    updateFailed: bool,           // the final state update reported an error
    origin: map<EventType, Channel>)  // the channels, as far as matched, when it was put in the map

  /** A dispatch goroutine with an event in hand: before the matching under the read lock,
      then the matches still to be served. */
  datatype Dispatch = Dispatch(env: Envelope, matched: bool, asks: seq<string>, receives: seq<string>)

  /** The sweep: its clock reading, the handles in the maps at its snapshot, and the expired
      ones still to be resolved. */
  datatype Sweep = NoSweep | Sweeping(now: int, present: set<string>, expired: seq<string>)

  datatype State = State(
    clock: int,
    handles: map<string, Handle>,
    listed: set<string>,
    rows: map<string, CorrelationRow>,
    inbox: map<EventType, Channel>,
    dispatch: map<EventType, Dispatch>,
    sweep: Sweep)

  function Inbox(inbox: map<EventType, Channel>, t: EventType): Channel {
    if t in inbox then inbox[t] else EMPTY_CHANNEL
  }

  /** The channel of type t as far as matching has got: an event taken from it but not yet
      matched against the maps still counts as its oldest waiting one. */
  function Unmatched(s: State, t: EventType): Channel {
    var c := Inbox(s.inbox, t);
    if t in s.dispatch && !s.dispatch[t].matched && c.handled != []
    then c.(buffer := [s.dispatch[t].env] + c.buffer, handled := c.handled[..|c.handled| - 1]) else c
  }

  function AllUnmatched(s: State): map<EventType, Channel> {
    map t | t in s.inbox.Keys + s.dispatch.Keys :: Unmatched(s, t)
  }

  /** A started process; the table may hold rows of earlier ones. */
  function Init(clock: int, rows: map<string, CorrelationRow>): State {
    State(clock, map[], {}, rows, map[], map[], NoSweep)
  }

  /** The filter, and for asks the echo guard. */
  predicate Accepts(re: Regexp, id: string, h: Handle, env: Envelope) {
    && FilterMatches(re, h.filter, env, h.accountID)
    && (h.kind.Ask? ==> !(env.payload.Message? && env.payload.eventID == id))
  }

  ghost predicate ExactlyTheMatches(re: Regexp, s: State, kind: Kind, env: Envelope, ids: seq<string>) {
    && (forall id :: id in ids <==>
          id in s.listed && id in s.handles && s.handles[id].kind == kind && Accepts(re, id, s.handles[id], env))
    && (forall i, j :: 0 <= i < j < |ids| ==> ids[i] != ids[j])
  }

  // # Effects on one handle

  function NewHandle(kind: Kind, accountID: string, filter: Option<CompiledNode>, deadline: int, limit: int): Handle {
    Handle(kind, accountID, filter, deadline, limit, false, Fresh, ResultChan([], 0, 0), 0, NotStarted,
           [], 0, 0, false, map[])
  }

  /** Winning once.Do. Asks have nothing to snapshot. */
  function Win(h: Handle, outcome: Outcome): Handle {
    h.(once := Running(outcome, if h.kind.Ask? then Emit else Snapshot, []))
  }

  function OnTimeout(h: Handle): Outcome {
    if h.kind.Ask? then TimedOut else Window(Expired)
  }

  function FinalState(o: Outcome): RowState {
    match o
    case Matched(_) => Resolved
    case TimedOut => Expired
    case Window(final) => final
  }

  predicate AtLimit(limit: int, collected: seq<Envelope>) {
    limit > 0 && |collected| >= limit
  }

  /** collectForReceive under the handle's lock. */
  function Collect(h: Handle, env: Envelope): Handle {
    if AtLimit(h.limit, h.collected) then h
    else
      var more := h.(collected := h.collected + [env]);
      if AtLimit(h.limit, more.collected)
      then more.(launched := h.launched + 1, resolvers := h.resolvers + 1) else more
  }

  /** UPDATE correlation_state SET state = ? WHERE id = ?. */
  function SetRowState(rows: map<string, CorrelationRow>, id: string, state: RowState, fault: Fault)
    : map<string, CorrelationRow>
  {
    if fault != BeforeWrite && id in rows then rows[id := rows[id].(state := state)] else rows
  }

  /** One step of the once body on the handle itself. */
  function AdvanceHandle(h: Handle, fault: Fault): Handle
    requires h.once.Running?
  {
    var o := h.once.outcome;
    match h.once.stage
    case Snapshot => h.(once := Running(o, Emit, h.collected))
    case Emit =>
      h.(once := Running(o, CloseDone, h.once.events),
         result := match o
                   case Matched(env) => h.result.(sent := h.result.sent + [[env]])
                   case TimedOut => h.result.(closes := h.result.closes + 1)
                   case Window(_) => h.result.(sent := h.result.sent + [h.once.events]))
    case CloseDone => h.(once := Running(o, Remove, h.once.events), doneCloses := h.doneCloses + 1)
    case Remove => h.(once := Running(o, Update, h.once.events))
    case Update => h.(once := Finished(o), updateFailed := fault != NoFault)
  }

  // # Steps

  datatype HandleAction =
    | List
    | StartTimer
    | FireTimer
    | QuitTimer
    | TimeoutWins
    | TimeoutReturns
    | ResolverWins
    | ResolverReturns
    | Advance(fault: Fault)
    | TakeResult

  datatype DispatchAction =
    | TakeEvent
    | Match(asks: seq<string>, receives: seq<string>)
    | AskWins
    | AskReturns
    | CollectNext
    | Return

  datatype Step =
    | Insert(id: string, kind: Kind, accountID: string, filter: Option<CompiledNode>, deadline: int, limit: int,
             fault: Fault)
    | OnHandle(id: string, act: HandleAction)
    | Publish(env: Envelope)
    | OnDispatch(t: EventType, call: DispatchAction)
    | SweepStart(now: int, expired: seq<string>)  // the clock is read before the lock is taken
    | SweepWins
    | SweepReturns
    | Prune(fault: Fault)
    | Tick(ns: nat)

  predicate HandleEnabled(s: State, id: string, act: HandleAction) {
    && id in s.handles
    && var h := s.handles[id];
       match act
       case List => !h.published
       case StartTimer => h.published && h.timer.NotStarted?
       case FireTimer => h.timer.Armed? && s.clock >= h.deadline
       case QuitTimer => h.timer.Armed? && h.doneCloses > 0
       case TimeoutWins => h.timer.Firing? && h.once.Fresh?
       case TimeoutReturns => h.timer.Firing? && h.once.Finished?
       case ResolverWins => h.resolvers > 0 && h.once.Fresh?
       case ResolverReturns => h.resolvers > 0 && h.once.Finished?
       case Advance(_) => h.once.Running?
       case TakeResult => h.result.taken < |h.result.sent|
  }

  function ApplyHandle(s: State, id: string, act: HandleAction): State
    requires HandleEnabled(s, id, act)
  {
    var h := s.handles[id];
    match act
    case List => SetHandle(s, id, h.(published := true, origin := AllUnmatched(s))).(listed := s.listed + {id})
    case StartTimer => SetHandle(s, id, h.(timer := Armed))
    case FireTimer => SetHandle(s, id, h.(timer := Firing))
    case QuitTimer => SetHandle(s, id, h.(timer := Gone))
    case TimeoutWins => SetHandle(s, id, Win(h, OnTimeout(h)))
    case TimeoutReturns => SetHandle(s, id, h.(timer := Gone))
    case ResolverWins => SetHandle(s, id, Win(h, Window(Resolved)))
    case ResolverReturns => SetHandle(s, id, h.(resolvers := h.resolvers - 1))
    case Advance(fault) =>
      SetHandle(s, id, AdvanceHandle(h, fault)).(
        listed := if h.once.stage == Remove then s.listed - {id} else s.listed,
        rows := if h.once.stage == Update then SetRowState(s.rows, id, FinalState(h.once.outcome), fault) else s.rows)
    case TakeResult => SetHandle(s, id, h.(result := h.result.(taken := h.result.taken + 1)))
  }

  function SetHandle(s: State, id: string, h: Handle): State {
    s.(handles := s.handles[id := h])
  }

  ghost predicate DispatchEnabled(re: Regexp, s: State, t: EventType, call: DispatchAction) {
    && t in INBOUND_TYPES
    && (call.TakeEvent? <==> t !in s.dispatch)
    && match call
       case TakeEvent => Inbox(s.inbox, t).buffer != []
       case Match(asks, receives) =>
         var d := s.dispatch[t];
         && !d.matched
         && ExactlyTheMatches(re, s, Ask, d.env, asks)
         && ExactlyTheMatches(re, s, Kind.Receive, d.env, receives)
       case AskWins =>
         var d := s.dispatch[t];
         d.asks != [] && d.asks[0] in s.handles && s.handles[d.asks[0]].once.Fresh?
       case AskReturns =>
         var d := s.dispatch[t];
         d.asks != [] && d.asks[0] in s.handles && s.handles[d.asks[0]].once.Finished?
       case CollectNext =>
         var d := s.dispatch[t];
         d.asks == [] && d.receives != [] && d.receives[0] in s.handles
       case Return => s.dispatch[t].matched && s.dispatch[t].asks == [] && s.dispatch[t].receives == []
  }

  ghost function ApplyDispatch(re: Regexp, s: State, t: EventType, call: DispatchAction): State
    requires DispatchEnabled(re, s, t, call)
  {
    match call
    case TakeEvent =>
      var c := Inbox(s.inbox, t);
      s.(inbox := s.inbox[t := Take(c)], dispatch := s.dispatch[t := Dispatch(c.buffer[0], false, [], [])])
    case Match(asks, receives) =>
      s.(dispatch := s.dispatch[t := Dispatch(s.dispatch[t].env, true, asks, receives)])
    case AskWins =>
      var d := s.dispatch[t];
      SetHandle(s, d.asks[0], Win(s.handles[d.asks[0]], Matched(d.env)))
    case AskReturns =>
      var d := s.dispatch[t];
      s.(dispatch := s.dispatch[t := d.(asks := d.asks[1..])])
    case CollectNext =>
      var d := s.dispatch[t];
      SetHandle(s, d.receives[0], Collect(s.handles[d.receives[0]], d.env))
      .(dispatch := s.dispatch[t := d.(receives := d.receives[1..])])
    case Return => s.(dispatch := s.dispatch - {t})
  }

  /** DELETE ... WHERE state = 'pending' AND timeout_at > 0 AND timeout_at < ?. */
  predicate Prunable(row: CorrelationRow, nowMs: int) {
    row.state == Pending && row.timeoutAt > 0 && row.timeoutAt < nowMs
  }

  function Pruned(rows: map<string, CorrelationRow>, nowMs: int): map<string, CorrelationRow> {
    map id | id in rows && !Prunable(rows[id], nowMs) :: rows[id]
  }

  ghost predicate Enabled(re: Regexp, s: State, step: Step) {
    match step
    case Insert(id, _, _, _, _, _, _) => id !in s.handles && id !in s.rows
    case OnHandle(id, act) => HandleEnabled(s, id, act)
    case Publish(env) => true
    case OnDispatch(t, call) => DispatchEnabled(re, s, t, call)
    case SweepStart(now, expired) =>
      s.sweep.NoSweep? && now <= s.clock &&
      forall id :: id in expired <==> id in s.listed && id in s.handles && now > s.handles[id].deadline
    case SweepWins =>
      && s.sweep.Sweeping? && s.sweep.expired != []
      && s.sweep.expired[0] in s.handles && s.handles[s.sweep.expired[0]].once.Fresh?
    case SweepReturns =>
      && s.sweep.Sweeping? && s.sweep.expired != []
      && s.sweep.expired[0] in s.handles && s.handles[s.sweep.expired[0]].once.Finished?
    case Prune(_) => s.sweep.Sweeping? && s.sweep.expired == []
    case Tick(_) => true
  }

  ghost function Apply(re: Regexp, s: State, step: Step): State
    requires Enabled(re, s, step)
  {
    match step
    case Insert(id, kind, accountID, filter, deadline, limit, fault) =>
      var written := s.rows[id := CorrelationRow(Pending, UnixMilli(deadline))];
      if fault != NoFault then s.(rows := if fault == BeforeWrite then s.rows else written)
      else SetHandle(s, id, NewHandle(kind, accountID, filter, deadline, limit)).(rows := written)
    case OnHandle(id, act) => ApplyHandle(s, id, act)
    case Publish(env) =>
      s.(inbox := s.inbox[env.eventType := Offer(Inbox(s.inbox, env.eventType), env)])
    case OnDispatch(t, call) => ApplyDispatch(re, s, t, call)
    case SweepStart(now, expired) => s.(sweep := Sweeping(now, s.listed, expired))
    case SweepWins =>
      var id := s.sweep.expired[0];
      SetHandle(s, id, Win(s.handles[id], OnTimeout(s.handles[id])))
    case SweepReturns => s.(sweep := s.sweep.(expired := s.sweep.expired[1..]))
    case Prune(fault) =>
      s.(sweep := NoSweep,
         rows := if fault == BeforeWrite then s.rows else Pruned(s.rows, UnixMilli(s.sweep.now)))
    case Tick(ns) => s.(clock := s.clock + ns)
  }

  ghost predicate IsRun(re: Regexp, steps: seq<Step>, states: seq<State>) {
    && |states| == |steps| + 1
    && (exists clock, rows :: states[0] == Init(clock, rows))
    && forall i {:trigger steps[i]} :: 0 <= i < |steps| ==>
         Enabled(re, states[i], steps[i]) && states[i + 1] == Apply(re, states[i], steps[i])
  }
}
