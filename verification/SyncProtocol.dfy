/** The sync loop across crashes and restarts, as a transition system over its cache, bus
    and token operations. The server's answers, store faults, decryption outcomes and
    cancellation are free. */
module SyncProtocol {
  import opened Wrappers
  import opened Events
  import opened QueueStore
  import opened Sync

  /** Where the handler of the current item stands. */
  datatype Stage =
    | Fresh                     // not yet looked at
    | Opened                    // decrypted
    | Publishing(env: Envelope) // found new
    | Marking(env: Envelope)    // published, not yet in the cache

  datatype Phase =
    | Down
    | Polling(since: string)
    | InBatch(since: string, resp: Response, entered: nat, items: seq<Item>, stage: Stage)
    | Advancing(since: string, resp: Response)

  /** token and cache survive a crash; the rest of the durable part is history: what was
      published, and per id the failed lookups, failed inserts and crashes between publish
      and mark. */
  datatype State = State(
    phase: Phase,
    cancelled: bool,
    token: string,
    cache: set<string>,
    published: Bus,
    failedLookups: map<string, nat>,
    failedInserts: map<string, nat>,
    crashes: map<string, nat>)

  function Count(m: map<string, nat>, id: string): nat {
    if id in m then m[id] else 0
  }

  function Bump(m: map<string, nat>, id: string): map<string, nat> {
    m[id := Count(m, id) + 1]
  }

  datatype Step =
    | Start(loadFails: bool)
    | Cancel
    | Stop
    | RequestFails
    | Respond(resp: Response)
    | EnterRoom
    | Skip
    | MarkOwn(fault: Fault)
    | OpenItem
    | ReportFailure
    | FindNew(lookupFails: bool)
    | FindSeen
    | PublishItem
    | MarkItem(fault: Fault)
    | PublishReceipt
    | EndBatch
    | PersistToken(fault: Fault)
    | Crash

  function Init(): State {
    State(Down, false, "", {}, multiset{}, map[], map[], map[])
  }

  predicate AtItem(s: State) {
    s.phase.InBatch? && s.phase.items != []
  }

  predicate AtEvent(s: State, stage: Stage) {
    AtItem(s) && s.phase.items[0].Timeline? && s.phase.stage == stage
  }

  function Current(s: State): Event
    requires AtItem(s) && s.phase.items[0].Timeline?
  {
    s.phase.items[0].event
  }

  /** The disposition of the current event at its current stage. */
  function CurrentDisposition(cfg: Config, s: State): Disposition
    requires AtItem(s) && s.phase.items[0].Timeline?
  {
    if s.phase.stage.Opened? then DisposePlain(cfg, Current(s)) else Dispose(cfg, Current(s))
  }

  /** The current event has not been looked up yet, and is to be handled as d says. */
  predicate Handles(cfg: Config, s: State) {
    (AtEvent(s, Fresh) || AtEvent(s, Opened)) && CurrentDisposition(cfg, s).Check?
  }

  ghost predicate Enabled(cfg: Config, s: State, step: Step) {
    match step
    case Start(_) => s.phase.Down?
    case Cancel => !s.phase.Down?
    case Stop => (s.phase.Polling? && s.cancelled) || (s.phase.InBatch? && s.phase.items == [] && s.cancelled)
    case RequestFails => s.phase.Polling?
    case Respond(resp) => s.phase.Polling? && HonestResponse(cfg, resp)
    case EnterRoom =>
      s.phase.InBatch? && s.phase.items == [] && !s.cancelled && s.phase.entered < |Rooms(s.phase.resp)|
    case Skip => (AtEvent(s, Fresh) || AtEvent(s, Opened)) && CurrentDisposition(cfg, s).Ignore?
    case MarkOwn(_) => (AtEvent(s, Fresh) || AtEvent(s, Opened)) && CurrentDisposition(cfg, s).MarkOnly?
    case OpenItem => AtEvent(s, Fresh) && Dispose(cfg, Current(s)).Decrypt?
    case ReportFailure => AtEvent(s, Fresh) && Dispose(cfg, Current(s)).Decrypt?
    case FindNew(lookupFails) =>
      Handles(cfg, s) && IsNew(s.cache, Current(s).id, lookupFails) && (lookupFails ==> Current(s).id != "")
    case FindSeen => Handles(cfg, s) && !IsNew(s.cache, Current(s).id, false)
    case PublishItem => AtItem(s) && s.phase.items[0].Timeline? && s.phase.stage.Publishing?
    case MarkItem(_) => AtItem(s) && s.phase.items[0].Timeline? && s.phase.stage.Marking?
    case PublishReceipt => AtItem(s) && s.phase.items[0].Ephemeral?
    case EndBatch =>
      s.phase.InBatch? && s.phase.items == [] && !s.cancelled && s.phase.entered == |Rooms(s.phase.resp)|
    case PersistToken(_) => s.phase.Advancing?
    case Crash => !s.phase.Down?
  }

  function AtStage(s: State, stage: Stage): State
    requires AtItem(s)
  {
    s.(phase := s.phase.(stage := stage))
  }

  function NextItem(s: State): State
    requires AtItem(s)
  {
    s.(phase := s.phase.(items := s.phase.items[1..], stage := Fresh))
  }

  /** Writing the cache, with the failures of the write counted. */
  function MarkedState(s: State, id: string, fault: Fault): State {
    s.(cache := Marked(s.cache, id, fault),
       failedInserts := if fault == NoFault || id == "" then s.failedInserts else Bump(s.failedInserts, id))
  }

  function PublishedState(s: State, env: Envelope): State {
    s.(published := s.published + multiset{env})
  }

  ghost function Apply(cfg: Config, s: State, step: Step): State
    requires Enabled(cfg, s, step)
  {
    match step
    case Start(loadFails) => s.(phase := Polling(if loadFails then "" else s.token), cancelled := false)
    case Cancel => s.(cancelled := true)
    case Stop => s.(phase := Down)
    case RequestFails => s
    case Respond(resp) => s.(phase := InBatch(s.phase.since, resp, 0, [], Fresh))
    case EnterRoom =>
      s.(phase := s.phase.(entered := s.phase.entered + 1, items := Rooms(s.phase.resp)[s.phase.entered],
          stage := Fresh))
    case Skip => NextItem(s)
    case MarkOwn(fault) => NextItem(MarkedState(s, Current(s).id, fault))
    case OpenItem => AtStage(s, Opened)
    case ReportFailure => NextItem(PublishedState(s, FailureOf(cfg, Current(s))))
    case FindNew(lookupFails) =>
      AtStage(if lookupFails then s.(failedLookups := Bump(s.failedLookups, Current(s).id)) else s,
              Publishing(CurrentDisposition(cfg, s).env))
    case FindSeen => NextItem(s)
    case PublishItem => AtStage(PublishedState(s, s.phase.stage.env), Marking(s.phase.stage.env))
    case MarkItem(fault) => NextItem(MarkedState(s, Current(s).id, fault))
    case PublishReceipt => NextItem(PublishedState(s, ReceiptOf(cfg, s.phase.items[0].receipt)))
    case EndBatch => s.(phase := Advancing(s.phase.since, s.phase.resp))
    case PersistToken(fault) =>
      s.(phase := Polling(s.phase.resp.nextBatch),
         token := if fault == BeforeWrite then s.token else s.phase.resp.nextBatch)
    case Crash =>
      s.(phase := Down,
         crashes := if AtItem(s) && s.phase.items[0].Timeline? && s.phase.stage.Marking?
                    then Bump(s.crashes, Current(s).id) else s.crashes)
  }

  ghost predicate IsRun(cfg: Config, steps: seq<Step>, states: seq<State>) {
    && |states| == |steps| + 1
    && states[0] == Init()
    && forall i {:trigger steps[i]} :: 0 <= i < |steps| ==>
         Enabled(cfg, states[i], steps[i]) && states[i + 1] == Apply(cfg, states[i], steps[i])
  }

  // # No loss

  /** The current event's stage carries the envelope it is due as. */
  predicate StageOk(cfg: Config, s: State) {
    AtItem(s) && (s.phase.stage.Publishing? || s.phase.stage.Marking? || s.phase.stage.Opened?) ==>
      && s.phase.items[0].Timeline?
      && (s.phase.stage.Opened? ==> Dispose(cfg, Current(s)).Decrypt?)
      && (!s.phase.stage.Opened? ==> Due(cfg, Current(s)) == Some(s.phase.stage.env))
      && (s.phase.stage.Marking? ==> s.phase.stage.env in s.published)
  }

  /** Rooms before the current one are done, and so is the current one up to the current
      item. */
  ghost predicate ProgressOk(cfg: Config, s: State) {
    match s.phase
    case InBatch(_, resp, entered, items, _) =>
      && HonestResponse(cfg, resp) && entered <= |Rooms(resp)|
      && (items != [] ==> entered > 0)
      && (forall r :: 0 <= r < entered - 1 ==> AllDone(cfg, s.published, Rooms(resp)[r]))
      && (entered > 0 ==> RestOf(cfg, s.published, Rooms(resp)[entered - 1], items))
    case Advancing(_, resp) => RoomsDone(cfg, s.published, resp)
    case _ => true
  }

  /** rest is what remains of room, and everything before it is done. */
  ghost predicate RestOf(cfg: Config, published: Bus, room: seq<Item>, rest: seq<Item>) {
    && |rest| <= |room| && room[|room| - |rest|..] == rest
    && AllDone(cfg, published, room[..|room| - |rest|])
  }

  ghost predicate Inv(cfg: Config, s: State) {
    CacheOk(cfg, s.cache, s.published) && StageOk(cfg, s) && ProgressOk(cfg, s)
  }

  lemma RestStart(cfg: Config, published: Bus, room: seq<Item>)
    ensures RestOf(cfg, published, room, room)
  {
  }

  lemma RestNext(cfg: Config, published: Bus, room: seq<Item>, rest: seq<Item>)
    requires RestOf(cfg, published, room, rest) && rest != [] && Done(cfg, published, rest[0])
    ensures RestOf(cfg, published, room, rest[1..])
  {
    hide Done;
    var n := |room| - |rest|;
    assert room[..n + 1] == room[..n] + [rest[0]];
  }

  lemma RestHonest(cfg: Config, s: State)
    requires ProgressOk(cfg, s) && AtItem(s)
    ensures Honest(cfg, s.phase.items[0])
  {
    HonestRooms(cfg, s.phase.resp);
    hide Honest, HonestResponse, AllDone, Rooms;
    var room := Rooms(s.phase.resp)[s.phase.entered - 1];
    assert HonestAll(cfg, room);
    assert room[|room| - |s.phase.items|] == s.phase.items[0];
  }

  /** More may have been published since. */
  lemma ProgressStays(cfg: Config, s: State, published: Bus)
    requires ProgressOk(cfg, s) && s.published <= published
    ensures ProgressOk(cfg, s.(published := published))
  {
    hide AllDone, HonestResponse, Rooms;
    match s.phase
    case InBatch(_, resp, entered, items, _) =>
      forall r | 0 <= r < entered - 1 ensures AllDone(cfg, published, Rooms(resp)[r]) {
        AllDoneStays(cfg, s.published, published, Rooms(resp)[r]);
      }
      if entered > 0 {
        var room := Rooms(resp)[entered - 1];
        AllDoneStays(cfg, s.published, published, room[..|room| - |items|]);
      }
    case Advancing(_, resp) =>
      forall r | 0 <= r < |Rooms(resp)| ensures AllDone(cfg, published, Rooms(resp)[r]) {
        AllDoneStays(cfg, s.published, published, Rooms(resp)[r]);
      }
    case _ =>
  }

  /** Going on to the next item once the current one is done. */
  lemma NextItemOk(cfg: Config, s: State)
    requires ProgressOk(cfg, s) && AtItem(s) && Done(cfg, s.published, s.phase.items[0])
    ensures ProgressOk(cfg, NextItem(s)) && StageOk(cfg, NextItem(s))
  {
    hide Done, AllDone, HonestResponse, Rooms, RestOf;
    RestNext(cfg, s.published, Rooms(s.phase.resp)[s.phase.entered - 1], s.phase.items);
  }

  lemma MarkKeepsCache(cfg: Config, cache: set<string>, published: Bus, e: Event, fault: Fault)
    requires CacheOk(cfg, cache, published) && Honest(cfg, Timeline(e)) && Done(cfg, published, Timeline(e))
    ensures CacheOk(cfg, Marked(cache, e.id, fault), published)
  {
    hide Done;
  }
}
