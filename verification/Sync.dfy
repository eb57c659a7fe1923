/** The /sync loop of one account (internal/sync): normalisation of server events, the
    dedup cache, and the loop that publishes each batch before advancing its token. */
module Sync {
  import opened Wrappers
  import opened Backoff
  import opened Events
  import opened QueueStore

  datatype Relation = Unrelated | Replaces(target: string) | RelatesTo(replyTo: string)

  /** The plaintext content of a server event, by its type. */
  datatype Body =
    | Text(msgType: string, text: string, relation: Relation, newBody: Option<string>,
           mimeType: string, url: string, filename: string, encryptedFile: bool)
    | React(target: string, key: string)
    | Redact(topLevel: string, inContent: string, reason: string)
    | Member(stateKey: Option<string>, membership: string)
    | Unhandled

  /** A state or timeline event; timestamp is in milliseconds. An encrypted event carries
      its plaintext, which only a successful decryption uncovers. */
  datatype Event = Event(id: string, roomID: string, sender: string, encrypted: bool, body: Body, timestamp: int)

  datatype ReadReceipt = ReadReceipt(roomID: string, userID: string, eventID: string, receiptType: string,
                                     timestamp: int)

  datatype Item = Timeline(event: Event) | Ephemeral(receipt: ReadReceipt)

  datatype Room = Room(state: seq<Event>, timeline: seq<Event>, receipts: seq<ReadReceipt>)

  datatype Response = Response(join: seq<Room>, leave: seq<Room>, nextBatch: string)

  /** `content` says which event an id stands for: the server never reuses an id. */
  datatype Config = Config(accountID: string, userID: string, hasDecrypter: bool, content: string -> Event)

  type Bus = multiset<Envelope>

  // # Normalisation

  function AttachmentOf(b: Body): Option<Attachment>
    requires b.Text?
  {
    if b.msgType in ["m.file", "m.image", "m.audio", "m.video"]
    then Some(Attachment(if b.encryptedFile then "" else b.url, b.mimeType, b.filename)) else None
  }

  /** What an event's plaintext is published as; None when it is not published at all. */
  function PayloadOf(e: Event): Option<Payload> {
    var at := e.timestamp * 1_000_000;
    match e.body
    case Text(_, text, relation, newBody, _, _, _, _) =>
      (match relation
       case Replaces(target) =>
         if newBody.None? then None else Some(Edit(e.id, e.sender, target, newBody.value, at))
       case Unrelated => Some(Message(e.id, e.sender, text, "", AttachmentOf(e.body), at))
       case RelatesTo(replyTo) => Some(Message(e.id, e.sender, text, replyTo, AttachmentOf(e.body), at)))
    case React(target, key) => Some(Reaction(e.id, e.sender, target, key, at))
    case Redact(topLevel, inContent, reason) =>
      Some(Redaction(e.id, e.sender, if topLevel == "" then inContent else topLevel, reason, at))
    case Member(stateKey, membership) =>
      if stateKey.None? then None else Some(Membership(e.id, stateKey.value, membership, at))
    case Unhandled => None
  }

  function TypeOf(p: Payload): EventType {
    match p
    case Message(_, _, _, _, _, _) => "inbound.message"
    case Edit(_, _, _, _, _) => "inbound.edit"
    case Reaction(_, _, _, _, _) => "inbound.reaction"
    case Redaction(_, _, _, _, _) => "inbound.redaction"
    case Membership(_, _, _, _) => "inbound.membership"
    case Receipt(_, _, _, _) => "inbound.receipt"
    case Internal(_) => "crypto.encryption_failure"
  }

  function Wrap(cfg: Config, roomID: string, p: Payload): Envelope {
    Envelope(TypeOf(p), cfg.accountID, roomID, p)
  }

  function FailureOf(cfg: Config, e: Event): Envelope {
    Wrap(cfg, e.roomID, Internal(e.id))
  }

  function ReceiptOf(cfg: Config, r: ReadReceipt): Envelope {
    Wrap(cfg, r.roomID, Receipt(r.eventID, r.userID, r.receiptType, r.timestamp * 1_000_000))
  }

  /** What dispatchEvent does with an event. */
  datatype Disposition = Ignore | MarkOnly | Decrypt | Check(env: Envelope)

  function DisposePlain(cfg: Config, e: Event): Disposition {
    if !e.body.Member? && !e.body.Unhandled? && e.sender == cfg.userID then MarkOnly
    else
      var p := PayloadOf(e);
      if p.None? then Ignore else Check(Wrap(cfg, e.roomID, p.value))
  }

  function Dispose(cfg: Config, e: Event): Disposition {
    if !e.encrypted then DisposePlain(cfg, e)
    else if !cfg.hasDecrypter then Ignore
    else if e.sender == cfg.userID then MarkOnly
    else Decrypt
  }

  /** The envelope an event is to be published as, if any. */
  function Due(cfg: Config, e: Event): Option<Envelope> {
    var d := if Dispose(cfg, e).Decrypt? then DisposePlain(cfg, e) else Dispose(cfg, e);
    if d.Check? then Some(d.env) else None
  }

  // # Cache

  function Marked(cache: set<string>, id: string, fault: Fault): set<string> {
    if id == "" || fault == BeforeWrite then cache else cache + {id}
  }

  /** isSeen's answer, which is true for a new event. */
  predicate IsNew(cache: set<string>, id: string, lookupFails: bool) {
    id == "" || lookupFails || id !in cache
  }

  // # Batches

  function TimelineItems(es: seq<Event>): seq<Item> {
    seq(|es|, i requires 0 <= i < |es| => Timeline(es[i]))
  }

  function ReceiptItems(rs: seq<ReadReceipt>): seq<Item> {
    seq(|rs|, i requires 0 <= i < |rs| => Ephemeral(rs[i]))
  }

  function RoomItems(r: Room, joined: bool): seq<Item> {
    TimelineItems(r.state) + TimelineItems(r.timeline) + if joined then ReceiptItems(r.receipts) else []
  }

  /** The rooms of a response in the order processResponse takes them. */
  function Rooms(r: Response): seq<seq<Item>> {
    seq(|r.join| + |r.leave|, i requires 0 <= i < |r.join| + |r.leave| =>
      if i < |r.join| then RoomItems(r.join[i], true) else RoomItems(r.leave[i - |r.join|], false))
  }

  /** The server's side: an id always stands for the same event. */
  predicate Honest(cfg: Config, item: Item) {
    item.Timeline? && item.event.id != "" ==> item.event == cfg.content(item.event.id)
  }

  ghost predicate HonestAll(cfg: Config, items: seq<Item>) {
    forall k :: 0 <= k < |items| ==> Honest(cfg, items[k])
  }

  /** The response carries this item: an event in the state or the timeline of some room, or a
      receipt of a joined one. */
  ghost predicate Contains(r: Response, item: Item) {
    match item
    case Timeline(e) => exists room :: room in r.join + r.leave && (e in room.state || e in room.timeline)
    case Ephemeral(receipt) => exists room :: room in r.join && receipt in room.receipts
  }

  ghost predicate HonestResponse(cfg: Config, r: Response) {
    forall item :: Contains(r, item) ==> Honest(cfg, item)
  }

  /** Where the items of a room stand: its state, then its timeline, then, if it is joined, its
      receipts. */
  lemma RoomOrder(r: Room, joined: bool, k: nat)
    ensures var items, n, m := RoomItems(r, joined), |r.state|, |r.state| + |r.timeline|;
            && |items| == m + (if joined then |r.receipts| else 0)
            && (k < n ==> items[k] == Timeline(r.state[k]))
            && (n <= k < m ==> items[k] == Timeline(r.timeline[k - n]))
            && (joined && m <= k < m + |r.receipts| ==> items[k] == Ephemeral(r.receipts[k - m]))
  {
  }

  /** Joined rooms come before left ones, each kind in its order. */
  lemma RoomsOrder(r: Response, k: nat)
    ensures |Rooms(r)| == |r.join| + |r.leave|
    ensures k < |r.join| ==> Rooms(r)[k] == RoomItems(r.join[k], true)
    ensures k < |r.leave| ==> Rooms(r)[|r.join| + k] == RoomItems(r.leave[k], false)
  {
    hide RoomItems;
  }

  lemma RoomItemsHold(room: Room, joined: bool, item: Item)
    ensures item in RoomItems(room, joined) <==>
            match item
            case Timeline(e) => e in room.state || e in room.timeline
            case Ephemeral(receipt) => joined && receipt in room.receipts
  {
    var items := RoomItems(room, joined);
    if item in items {
      var k :| 0 <= k < |items| && items[k] == item;
      RoomOrder(room, joined, k);
    }
    if item.Timeline? && item.event in room.state {
      var k :| 0 <= k < |room.state| && room.state[k] == item.event;
      RoomOrder(room, joined, k);
    } else if item.Timeline? && item.event in room.timeline {
      var k :| 0 <= k < |room.timeline| && room.timeline[k] == item.event;
      RoomOrder(room, joined, |room.state| + k);
    } else if item.Ephemeral? && joined && item.receipt in room.receipts {
      var k :| 0 <= k < |room.receipts| && room.receipts[k] == item.receipt;
      RoomOrder(room, joined, |room.state| + |room.timeline| + k);
    }
  }

  /** The rooms hold exactly what the response carries. */
  lemma RoomsHold(r: Response, item: Item)
    ensures (exists k :: 0 <= k < |Rooms(r)| && item in Rooms(r)[k]) <==> Contains(r, item)
  {
    hide RoomItems;
    forall k | 0 <= k < |Rooms(r)| && item in Rooms(r)[k] ensures Contains(r, item) {
      var room := if k < |r.join| then r.join[k] else r.leave[k - |r.join|];
      RoomItemsHold(room, k < |r.join|, item);
      assert room in r.join + r.leave && (k < |r.join| ==> room in r.join);
    }
    if Contains(r, item) {
      var k := RoomOf(r, item);
    }
  }

  lemma RoomOf(r: Response, item: Item) returns (k: nat)
    requires Contains(r, item)
    ensures k < |Rooms(r)| && item in Rooms(r)[k]
  {
    hide RoomItems;
    var rooms := r.join + r.leave;
    match item
    case Timeline(e) =>
      var room :| room in rooms && (e in room.state || e in room.timeline);
      k :| 0 <= k < |rooms| && rooms[k] == room;
      RoomItemsHold(room, k < |r.join|, item);
    case Ephemeral(receipt) =>
      var room :| room in r.join && receipt in room.receipts;
      k :| 0 <= k < |r.join| && r.join[k] == room;
      RoomItemsHold(room, true, item);
  }

  lemma HonestRooms(cfg: Config, r: Response)
    requires HonestResponse(cfg, r)
    ensures forall k :: 0 <= k < |Rooms(r)| ==> HonestAll(cfg, Rooms(r)[k])
  {
    hide Contains, Rooms, Honest;
    forall k, j | 0 <= k < |Rooms(r)| && 0 <= j < |Rooms(r)[k]| ensures Honest(cfg, Rooms(r)[k][j]) {
      RoomsHold(r, Rooms(r)[k][j]);
    }
  }

  // # The guarantee

  /** An event has been published, or its decryption failure has been reported, or there
      is nothing to publish for it. */
  predicate Done(cfg: Config, published: Bus, item: Item) {
    match item
    case Timeline(e) =>
      Due(cfg, e).Some? ==> Due(cfg, e).value in published || (e.encrypted && FailureOf(cfg, e) in published)
    case Ephemeral(r) => ReceiptOf(cfg, r) in published
  }

  ghost predicate AllDone(cfg: Config, published: Bus, items: seq<Item>) {
    forall k :: 0 <= k < |items| ==> Done(cfg, published, items[k])
  }

  ghost predicate ResponseDone(cfg: Config, published: Bus, r: Response) {
    forall item :: Contains(r, item) ==> Done(cfg, published, item)
  }

  ghost predicate RoomsDone(cfg: Config, published: Bus, r: Response) {
    forall k :: 0 <= k < |Rooms(r)| ==> AllDone(cfg, published, Rooms(r)[k])
  }

  lemma RoomsDoneMeans(cfg: Config, published: Bus, r: Response)
    requires RoomsDone(cfg, published, r)
    ensures ResponseDone(cfg, published, r)
  {
    hide Contains, Rooms, Done;
    forall item | Contains(r, item) ensures Done(cfg, published, item) {
      RoomsHold(r, item);
      var k :| 0 <= k < |Rooms(r)| && item in Rooms(r)[k];
      var j :| 0 <= j < |Rooms(r)[k]| && Rooms(r)[k][j] == item;
    }
  }

  lemma ResponseDoneStays(cfg: Config, published: Bus, published': Bus, r: Response)
    requires ResponseDone(cfg, published, r) && published <= published'
    ensures ResponseDone(cfg, published', r)
  {
    hide Contains, Done;
    forall item | Contains(r, item) ensures Done(cfg, published', item) {
      DoneStays(cfg, published, published', item);
    }
  }

  /** The cache only holds ids whose event needs no further publishing. */
  ghost predicate CacheOk(cfg: Config, cache: set<string>, published: Bus) {
    forall id :: id in cache ==> id != "" && Done(cfg, published, Timeline(cfg.content(id)))
  }

  lemma DoneStays(cfg: Config, published: Bus, published': Bus, item: Item)
    requires Done(cfg, published, item) && published <= published'
    ensures Done(cfg, published', item)
  {
    assert forall env :: env in published ==> env in published';
  }

  lemma CacheStays(cfg: Config, cache: set<string>, published: Bus, published': Bus)
    requires CacheOk(cfg, cache, published) && published <= published'
    ensures CacheOk(cfg, cache, published')
  {
    hide Done;
    forall id | id in cache ensures Done(cfg, published', Timeline(cfg.content(id))) {
      DoneStays(cfg, published, published', Timeline(cfg.content(id)));
    }
  }

  lemma AllDoneStays(cfg: Config, published: Bus, published': Bus, items: seq<Item>)
    requires AllDone(cfg, published, items) && published <= published'
    ensures AllDone(cfg, published', items)
  {
    hide Done;
    forall k | 0 <= k < |items| ensures Done(cfg, published', items[k]) {
      DoneStays(cfg, published, published', items[k]);
    }
  }

  // # One event

  /** How one event's store and crypto calls go. */
  datatype Luck = Luck(lookupFails: bool, decrypts: bool, insert: Fault)

  /** The cache and the bus after an event has been dispatched. */
  function Dispatched(cfg: Config, cache: set<string>, published: Bus, e: Event, luck: Luck): (set<string>, Bus) {
    match if Dispose(cfg, e).Decrypt? && luck.decrypts then DisposePlain(cfg, e) else Dispose(cfg, e)
    case Ignore => (cache, published)
    case MarkOnly => (Marked(cache, e.id, luck.insert), published)
    case Decrypt => (cache, published + multiset{FailureOf(cfg, e)})
    case Check(env) =>
      if IsNew(cache, e.id, luck.lookupFails)
      then (Marked(cache, e.id, luck.insert), published + multiset{env}) else (cache, published)
  }

  /** However the calls go, dispatching an event discharges it and keeps the cache sound. */
  lemma DispatchDischarges(cfg: Config, cache: set<string>, published: Bus, e: Event, luck: Luck)
    requires CacheOk(cfg, cache, published) && Honest(cfg, Timeline(e))
    ensures var (cache', published') := Dispatched(cfg, cache, published, e, luck);
            CacheOk(cfg, cache', published') && published <= published' && Done(cfg, published', Timeline(e))
  {
    var (cache', published') := Dispatched(cfg, cache, published, e, luck);
    CacheStays(cfg, cache, published, published');
    assert Done(cfg, published', Timeline(e)) by {
      hide PayloadOf, Wrap;
      if e.id in cache {
        DoneStays(cfg, published, published', Timeline(e));
      }
    }
    hide Done, DisposePlain, Dispose;
  }

  /** The cache and the bus after one item of a batch. */
  function AfterItem(cfg: Config, cache: set<string>, published: Bus, item: Item, luck: Luck): (set<string>, Bus) {
    match item
    case Timeline(e) => Dispatched(cfg, cache, published, e, luck)
    case Ephemeral(r) => (cache, published + multiset{ReceiptOf(cfg, r)})
  }

  /** After a list of items, the op-th item of the batch first. */
  function AfterItems(cfg: Config, cache: set<string>, published: Bus, items: seq<Item>, luck: nat -> Luck, op: nat)
    : (set<string>, Bus)
  {
    if items == [] then (cache, published)
    else
      var n := |items| - 1;
      var (c, p) := AfterItems(cfg, cache, published, items[..n], luck, op);
      AfterItem(cfg, c, p, items[n], luck(op + n))
  }

  lemma AfterOneMore(cfg: Config, cache: set<string>, published: Bus, items: seq<Item>, luck: nat -> Luck, op: nat,
                     k: nat)
    requires k < |items|
    ensures var (c, p) := AfterItems(cfg, cache, published, items[..k], luck, op);
            AfterItems(cfg, cache, published, items[..k + 1], luck, op) == AfterItem(cfg, c, p, items[k], luck(op + k))
  {
    hide AfterItem;
    assert items[..k + 1][..k] == items[..k];
  }

  lemma {:induction false} AfterConcat(cfg: Config, cache: set<string>, published: Bus, a: seq<Item>, b: seq<Item>,
                                       luck: nat -> Luck, op: nat)
    ensures var (c, p) := AfterItems(cfg, cache, published, a, luck, op);
            AfterItems(cfg, cache, published, a + b, luck, op) == AfterItems(cfg, c, p, b, luck, op + |a|)
    decreases |b|
  {
    hide AfterItem;
    if b == [] {
      assert a + b == a;
    } else {
      var init := b[..|b| - 1];
      AfterConcat(cfg, cache, published, a, init, luck, op);
      assert (a + b)[..|a + b| - 1] == a + init;
      assert (a + b)[|a + b| - 1] == b[|b| - 1];
      assert op + |a + init| == op + |a| + |init|;
    }
  }

  /** Whatever the luck, a list of items leaves every one of them done. */
  lemma {:induction false} ItemsDischarge(cfg: Config, cache: set<string>, published: Bus, items: seq<Item>,
                                          luck: nat -> Luck, op: nat)
    requires CacheOk(cfg, cache, published) && HonestAll(cfg, items)
    ensures var (c, p) := AfterItems(cfg, cache, published, items, luck, op);
            CacheOk(cfg, c, p) && published <= p && AllDone(cfg, p, items)
    decreases |items|
  {
    hide Dispatched, CacheOk, Done, Honest;
    if items != [] {
      var n := |items| - 1;
      var (c, p) := AfterItems(cfg, cache, published, items[..n], luck, op);
      ItemsDischarge(cfg, cache, published, items[..n], luck, op);
      var (c', p') := AfterItems(cfg, cache, published, items, luck, op);
      assert Honest(cfg, items[n]);
      ItemDischarges(cfg, c, p, items[n], luck(op + n));
      AllDoneStays(cfg, p, p', items[..n]);
      assert forall k :: 0 <= k < n ==> items[k] == items[..n][k];
    }
  }

  lemma ItemDischarges(cfg: Config, cache: set<string>, published: Bus, item: Item, luck: Luck)
    requires CacheOk(cfg, cache, published) && Honest(cfg, item)
    ensures var (c, p) := AfterItem(cfg, cache, published, item, luck);
            CacheOk(cfg, c, p) && published <= p && Done(cfg, p, item)
  {
    if item.Timeline? {
      DispatchDischarges(cfg, cache, published, item.event, luck);
      hide Dispatched, CacheOk, Done;
    } else {
      CacheStays(cfg, cache, published, published + multiset{ReceiptOf(cfg, item.receipt)});
    }
  }

  /** All items of some rooms, in order. */
  function Flatten(rooms: seq<seq<Item>>): seq<Item> {
    if rooms == [] then [] else Flatten(rooms[..|rooms| - 1]) + rooms[|rooms| - 1]
  }

  lemma {:induction false} FlattenHolds(rooms: seq<seq<Item>>, k: nat)
    requires k < |rooms|
    ensures forall x :: x in rooms[k] ==> x in Flatten(rooms)
    ensures forall x :: x in Flatten(rooms) ==> exists r :: 0 <= r < |rooms| && x in rooms[r]
    decreases |rooms|
  {
    var init := rooms[..|rooms| - 1];
    if init != [] {
      FlattenHolds(init, if k < |init| then k else 0);
    }
    forall x | x in Flatten(rooms) ensures exists r :: 0 <= r < |rooms| && x in rooms[r] {
      if x in Flatten(init) && init != [] {
        var r :| 0 <= r < |init| && x in init[r];
        assert rooms[r] == init[r];
      } else {
        assert x in rooms[|rooms| - 1];
      }
    }
  }

  /** After the rooms of a response that are reached before the context is found cancelled. */
  function AfterResponse(cfg: Config, cache: set<string>, published: Bus, resp: Response, patience: nat,
                         luck: nat -> Luck)
    : (set<string>, Bus)
  {
    var rooms := Rooms(resp);
    AfterItems(cfg, cache, published, Flatten(if patience < |rooms| then rooms[..patience] else rooms), luck, 0)
  }

  lemma ResponseDischarges(cfg: Config, cache: set<string>, published: Bus, resp: Response, patience: nat,
                           luck: nat -> Luck)
    requires CacheOk(cfg, cache, published) && HonestResponse(cfg, resp)
    ensures var (c, p) := AfterResponse(cfg, cache, published, resp, patience, luck);
            && CacheOk(cfg, c, p) && published <= p
            && (patience >= |resp.join| + |resp.leave| ==> ResponseDone(cfg, p, resp))
  {
    HonestRooms(cfg, resp);
    RoomsOrder(resp, 0);
    hide CacheOk, Done, Honest, AfterItems, Rooms, HonestResponse, ResponseDone;
    var rooms := Rooms(resp);
    var reached := if patience < |rooms| then rooms[..patience] else rooms;
    var items := Flatten(reached);
    forall k | 0 <= k < |items| ensures Honest(cfg, items[k]) {
      FlattenHolds(reached, 0);
      assert items[k] in Flatten(reached);
      var r :| 0 <= r < |reached| && items[k] in reached[r];
      assert reached[r] == rooms[r] && HonestAll(cfg, rooms[r]);
    }
    ItemsDischarge(cfg, cache, published, items, luck, 0);
    var (c, p) := AfterItems(cfg, cache, published, items, luck, 0);
    if patience >= |rooms| {
      forall r | 0 <= r < |rooms| ensures AllDone(cfg, p, rooms[r]) {
        FlattenHolds(rooms, r);
        forall k | 0 <= k < |rooms[r]| ensures Done(cfg, p, rooms[r][k]) {
          assert rooms[r][k] in Flatten(rooms);
        }
      }
      RoomsDoneMeans(cfg, p, resp);
    }
  }

  /** The response as far as n rooms go. */
  function Truncated(r: Response, n: nat): Response {
    if n <= |r.join| then r.(join := r.join[..n], leave := [])
    else if n <= |r.join| + |r.leave| then r.(leave := r.leave[..n - |r.join|])
    else r
  }

  /** Found cancelled after so many rooms, the rest of a response has no effect; what it is
      reached of has the effect it has in a whole response. */
  lemma CancellationStops(cfg: Config, cache: set<string>, published: Bus, resp: Response, patience: nat, whole: nat,
                          luck: nat -> Luck)
    requires whole >= |resp.join| + |resp.leave|
    ensures AfterResponse(cfg, cache, published, resp, patience, luck)
         == AfterResponse(cfg, cache, published, Truncated(resp, patience), whole, luck)
    ensures patience == 0 ==> AfterResponse(cfg, cache, published, resp, patience, luck) == (cache, published)
  {
    hide RoomItems;
    var rooms, some := Rooms(resp), Rooms(Truncated(resp, patience));
    assert some == if patience < |rooms| then rooms[..patience] else rooms;
    hide Rooms, AfterItems;
    if patience == 0 {
      NothingYet(cfg, cache, published, rooms, luck);
    }
  }

  // # The loop

  const SECOND: int := 1_000_000_000
  const MAX_BACKOFF: int := 60 * SECOND

  function Clamp(d: int, max: int): int {
    if d > max then max else d
  }

  /** Where a failed request's iteration finds the context cancelled, if at all. */
  datatype CancelPoint = NotCancelled | AfterRequest | DuringWait

  /** One iteration of the loop: the context found cancelled at its head, a failed request, or
      a response together with how many cancellation checks pass, the luck of its items, and
      the outcome of the token write. */
  datatype Answer =
    | Cancelled
    | RequestFailed(cancel: CancelPoint)
    | Answered(resp: Response, patience: nat, luck: nat -> Luck, tokenFault: Fault)

  /** The loop's variables and the stores, with the tokens asked with and the waits so far. */
  datatype Loop = Loop(
    token: string,
    since: string,
    cache: set<string>,
    published: Bus,
    backoff: int,
    asked: seq<string>,
    waits: seq<int>,
    stopped: bool)

  function Started(token: string, cache: set<string>, published: Bus, loadFails: bool): Loop {
    Loop(token, if loadFails then "" else token, cache, published, SECOND, [], [], false)
  }

  function AfterAnswer(cfg: Config, l: Loop, answer: Answer): Loop {
    if l.stopped then l
    else
      var asking := l.(asked := l.asked + [l.since]);
      match answer
      case Cancelled => l.(stopped := true)
      case RequestFailed(AfterRequest) => asking.(stopped := true)
      case RequestFailed(DuringWait) => asking.(waits := l.waits + [l.backoff], stopped := true)
      case RequestFailed(NotCancelled) =>
        asking.(waits := l.waits + [l.backoff], backoff := Clamp(l.backoff * 2, MAX_BACKOFF))
      case Answered(resp, patience, luck, tokenFault) =>
        var (cache, published) := AfterResponse(cfg, l.cache, l.published, resp, patience, luck);
        var processed := asking.(cache := cache, published := published, backoff := SECOND);
        if patience <= |Rooms(resp)| then processed.(stopped := true)
        else processed.(since := resp.nextBatch,
                        token := if tokenFault == BeforeWrite then l.token else resp.nextBatch)
  }

  function AfterAnswers(cfg: Config, l: Loop, answers: seq<Answer>): Loop {
    if answers == [] then l
    else AfterAnswer(cfg, AfterAnswers(cfg, l, answers[..|answers| - 1]), answers[|answers| - 1])
  }

  lemma AfterOneMoreAnswer(cfg: Config, l: Loop, answers: seq<Answer>, n: nat)
    requires n < |answers|
    ensures AfterAnswers(cfg, l, answers[..n + 1]) == AfterAnswer(cfg, AfterAnswers(cfg, l, answers[..n]), answers[n])
  {
    assert answers[..n + 1][..n] == answers[..n];
  }

  lemma LastAnswer(cfg: Config, l: Loop, answers: seq<Answer>)
    requires answers != []
    ensures var before := AfterAnswers(cfg, l, answers[..|answers| - 1]);
            && AfterAnswers(cfg, l, answers) == AfterAnswer(cfg, before, answers[|answers| - 1])
            && (before.stopped ==> AfterAnswers(cfg, l, answers) == before)
  {
  }

  /** The first request is made with the stored token, or with none if that cannot be loaded;
      the next one, after a batch that was taken in full, with the batch's token, which is then
      stored unless the write fails. */
  lemma {:induction false} AskedInTurn(cfg: Config, token: string, cache: set<string>, published: Bus,
                                       loadFails: bool, answers: seq<Answer>)
    requires answers != []
    ensures var start := Started(token, cache, published, loadFails);
            var before := AfterAnswers(cfg, start, answers[..|answers| - 1]);
            var l, last := AfterAnswers(cfg, start, answers), answers[|answers| - 1];
            && (|answers| == 1 && !last.Cancelled? ==> l.asked == [if loadFails then "" else token])
            && (!before.stopped && !last.Cancelled? ==> l.asked == before.asked + [before.since])
            && (!before.stopped && last.Answered? && !l.stopped ==>
                  && l.since == last.resp.nextBatch
                  && l.token == if last.tokenFault == BeforeWrite then before.token else last.resp.nextBatch)
            && (!before.stopped && !last.Answered? && !l.stopped ==> l.since == before.since)
  {
    hide AfterResponse, Clamp, Rooms;
    LastAnswer(cfg, Started(token, cache, published, loadFails), answers);
    assert |answers| == 1 ==> answers[..0] == [];
  }

  lemma {:induction false} StoppedStays(cfg: Config, l: Loop, answers: seq<Answer>, n: nat)
    requires n <= |answers| && AfterAnswers(cfg, l, answers[..n]).stopped
    ensures AfterAnswers(cfg, l, answers) == AfterAnswers(cfg, l, answers[..n])
    decreases |answers|
  {
    if n == |answers| {
      assert answers[..n] == answers;
    } else {
      var init := answers[..|answers| - 1];
      assert init[..n] == answers[..n];
      StoppedStays(cfg, l, init, n);
    }
  }

  /** The retry delay after k failed requests in a row. */
  function CappedDouble(k: nat): int {
    if SECOND * Pow2(k) <= MAX_BACKOFF then SECOND * Pow2(k) else MAX_BACKOFF
  }

  /** In seconds: one, two, four, eight, sixteen, thirty-two, and then sixty. */
  lemma {:induction false} CappedDoubleMeans(k: nat)
    ensures CappedDouble(k) == if k < 6 then [1, 2, 4, 8, 16, 32][k] * 1_000_000_000 else 60_000_000_000
  {
    if k >= 7 {
      CappedDoubleMeans(k - 1);
      DoublingOnce(k - 1);
    } else {
      assert Pow2(0) == 1 && Pow2(1) == 2 && Pow2(2) == 4 && Pow2(3) == 8 && Pow2(4) == 16 && Pow2(5) == 32;
      assert Pow2(6) == 64;
    }
  }

  /** How many requests have failed in a row. */
  function Streak(answers: seq<Answer>): nat {
    if answers == [] || !answers[|answers| - 1].RequestFailed? then 0 else Streak(answers[..|answers| - 1]) + 1
  }

  /** The waits of a run of answers: one after each failed request that is not cancelled at
      once, of a second doubled for each failure in a row before it, but of at most sixty. */
  function BackoffWaits(answers: seq<Answer>): seq<int> {
    if answers == [] then []
    else
      var before, last := answers[..|answers| - 1], answers[|answers| - 1];
      BackoffWaits(before) +
      if last.RequestFailed? && last.cancel != AfterRequest then [CappedDouble(Streak(before))] else []
  }

  /** One iteration's wait and the delay it leaves behind. */
  lemma OneWait(cfg: Config, l: Loop, answer: Answer)
    requires !l.stopped
    ensures var l', failed := AfterAnswer(cfg, l, answer), answer.RequestFailed?;
            && l'.waits == l.waits + (if failed && answer.cancel != AfterRequest then [l.backoff] else [])
            && (!l'.stopped ==> l'.backoff == if failed then Clamp(l.backoff * 2, MAX_BACKOFF) else SECOND)
  {
    hide AfterResponse, Clamp, Rooms;
  }

  /** The loop takes the first n answers, all of them unless it stops, and waits exactly so. */
  lemma {:induction false} WaitsDouble(cfg: Config, l: Loop, answers: seq<Answer>) returns (n: nat)
    requires !l.stopped && l.backoff == SECOND && l.waits == []
    ensures n <= |answers| && AfterAnswers(cfg, l, answers) == AfterAnswers(cfg, l, answers[..n])
    ensures var l' := AfterAnswers(cfg, l, answers);
            && l'.waits == BackoffWaits(answers[..n])
            && (!l'.stopped ==> n == |answers| && l'.backoff == CappedDouble(Streak(answers)))
  {
    hide AfterAnswer, CappedDouble, Clamp;
    DoublingOnce(0);
    n := |answers|;
    assert answers[..n] == answers;
    if answers != [] {
      var init := answers[..|answers| - 1];
      var k := WaitsDouble(cfg, l, init);
      LastAnswer(cfg, l, answers);
      var before := AfterAnswers(cfg, l, init);
      if before.stopped {
        n := k;
        assert init[..k] == answers[..k];
      } else {
        OneWait(cfg, before, answers[|answers| - 1]);
        DoublingOnce(Streak(init));
        assert init[..k] == init;
      }
    }
  }

  lemma DoublingOnce(k: nat)
    ensures CappedDouble(0) == SECOND && CappedDouble(k + 1) == Clamp(CappedDouble(k) * 2, MAX_BACKOFF)
  {
  }

  /** A token the loop may hold: where it started, or the end of a batch all of whose events
      are published. */
  ghost predicate Earned(cfg: Config, published: Bus, start: string, answers: seq<Answer>, token: string) {
    || token == start
    || exists i :: 0 <= i < |answers| && answers[i].Answered? && answers[i].resp.nextBatch == token
                   && ResponseDone(cfg, published, answers[i].resp)
  }

  lemma EarnedStays(cfg: Config, published: Bus, published': Bus, start: string, answers: seq<Answer>,
                    answers': seq<Answer>, token: string)
    requires Earned(cfg, published, start, answers, token) && published <= published' && answers <= answers'
    ensures Earned(cfg, published', start, answers', token)
  {
    hide ResponseDone;
    if token != start {
      var i :| 0 <= i < |answers| && answers[i].Answered? && answers[i].resp.nextBatch == token
               && ResponseDone(cfg, published, answers[i].resp);
      ResponseDoneStays(cfg, published, published', answers[i].resp);
      assert answers'[i] == answers[i];
    }
  }

  /** An answer published in full earns its token. */
  lemma AnswerEarns(cfg: Config, l: Loop, answers: seq<Answer>, start: string)
    requires answers != [] && CacheOk(cfg, l.cache, l.published) && !l.stopped
    requires var a := answers[|answers| - 1]; a.Answered? ==> HonestResponse(cfg, a.resp)
    ensures var l' := AfterAnswer(cfg, l, answers[|answers| - 1]);
            && CacheOk(cfg, l'.cache, l'.published) && l.published <= l'.published
            && (l'.since == l.since || Earned(cfg, l'.published, start, answers, l'.since))
            && (l'.token == l.token || Earned(cfg, l'.published, start, answers, l'.token))
            && l'.asked == (if answers[|answers| - 1].Cancelled? then l.asked else l.asked + [l.since])
            && (l'.asked == l.asked ==> l'.stopped)
  {
    if answers[|answers| - 1].Answered? {
      RoomsOrder(answers[|answers| - 1].resp, 0);
    }
    hide CacheOk, HonestResponse, AfterResponse, ResponseDone, Rooms;
    var a := answers[|answers| - 1];
    if a.Answered? {
      ResponseDischarges(cfg, l.cache, l.published, a.resp, a.patience, a.luck);
    }
  }

  ghost predicate HonestAnswers(cfg: Config, answers: seq<Answer>) {
    forall i :: 0 <= i < |answers| && answers[i].Answered? ==> HonestResponse(cfg, answers[i].resp)
  }

  /** The loop's tokens so far are earned. */
  ghost predicate Earnings(cfg: Config, l: Loop, answers: seq<Answer>, l': Loop) {
    && CacheOk(cfg, l'.cache, l'.published) && l.published <= l'.published
    && Earned(cfg, l'.published, l.token, answers, l'.token)
    && Earned(cfg, l'.published, l.since, answers, l'.since)
    && |l'.asked| <= |answers| && (!l'.stopped ==> |l'.asked| == |answers|)
  }

  lemma EarningsStep(cfg: Config, l: Loop, answers: seq<Answer>, before: Loop)
    requires answers != [] && HonestAnswers(cfg, answers) && !before.stopped
    requires Earnings(cfg, l, answers[..|answers| - 1], before)
    ensures Earnings(cfg, l, answers, AfterAnswer(cfg, before, answers[|answers| - 1]))
  {
    var init, after := answers[..|answers| - 1], AfterAnswer(cfg, before, answers[|answers| - 1]);
    AnswerEarns(cfg, before, answers, l.token);
    AnswerEarns(cfg, before, answers, l.since);
    hide CacheOk, AfterAnswer, Earned;
    EarnedStays(cfg, before.published, after.published, l.token, init, answers, before.token);
    EarnedStays(cfg, before.published, after.published, l.since, init, answers, before.since);
  }

  lemma EarningsStay(cfg: Config, l: Loop, answers: seq<Answer>, l': Loop)
    requires answers != [] && Earnings(cfg, l, answers[..|answers| - 1], l') && l'.stopped
    ensures Earnings(cfg, l, answers, l')
  {
    var init := answers[..|answers| - 1];
    hide CacheOk, Earned;
    EarnedStays(cfg, l'.published, l'.published, l.token, init, answers, l'.token);
    EarnedStays(cfg, l'.published, l'.published, l.since, init, answers, l'.since);
  }

  lemma {:induction false} EarningsAlways(cfg: Config, l: Loop, answers: seq<Answer>)
    requires CacheOk(cfg, l.cache, l.published) && !l.stopped && l.asked == [] && HonestAnswers(cfg, answers)
    ensures Earnings(cfg, l, answers, AfterAnswers(cfg, l, answers))
  {
    hide CacheOk, HonestResponse, AfterAnswer;
    if answers != [] {
      var init := answers[..|answers| - 1];
      EarningsAlways(cfg, l, init);
      LastAnswer(cfg, l, answers);
      hide Earnings;
      var before := AfterAnswers(cfg, l, init);
      if before.stopped {
        EarningsStay(cfg, l, answers, before);
      } else {
        EarningsStep(cfg, l, answers, before);
      }
    }
  }

  /** What is asked with next is what the loop holds; nothing asked with is ever revised. */
  lemma AskedNext(cfg: Config, l: Loop, answer: Answer)
    requires CacheOk(cfg, l.cache, l.published) && (answer.Answered? ==> HonestResponse(cfg, answer.resp))
    ensures var l' := AfterAnswer(cfg, l, answer);
            && l.published <= l'.published
            && (l'.asked == l.asked || (!l.stopped && l'.asked == l.asked + [l.since]))
  {
    hide CacheOk, HonestResponse, AfterResponse, Rooms;
    if answer.Answered? {
      ResponseDischarges(cfg, l.cache, l.published, answer.resp, answer.patience, answer.luck);
    }
  }

  /** Every token the loop asks with or persists is its starting token, or the end of a
      batch already published in full. */
  lemma {:induction false} TokensAreEarned(cfg: Config, l: Loop, answers: seq<Answer>, k: nat)
    requires CacheOk(cfg, l.cache, l.published) && !l.stopped && l.asked == [] && HonestAnswers(cfg, answers)
    ensures var l' := AfterAnswers(cfg, l, answers);
            && CacheOk(cfg, l'.cache, l'.published) && l.published <= l'.published
            && Earned(cfg, l'.published, l.token, answers, l'.token)
            && Earned(cfg, l'.published, l.since, answers, l'.since)
            && |l'.asked| <= |answers| && (!l'.stopped ==> |l'.asked| == |answers|)
            && (k < |l'.asked| ==> Earned(cfg, l'.published, l.since, answers[..k], l'.asked[k]))
  {
    hide CacheOk, HonestResponse, AfterAnswer, Earned;
    EarningsAlways(cfg, l, answers);
    if answers != [] {
      var n := |answers| - 1;
      var init := answers[..n];
      TokensAreEarned(cfg, l, init, k);
      LastAnswer(cfg, l, answers);
      var before, after := AfterAnswers(cfg, l, init), AfterAnswers(cfg, l, answers);
      hide AfterAnswers;
      AskedNext(cfg, before, answers[n]);
      EarnedStays(cfg, before.published, after.published, l.since, init, init, before.since);
      if k < |before.asked| {
        assert init[..k] == answers[..k];
        EarnedStays(cfg, before.published, after.published, l.since, init[..k], init[..k], before.asked[k]);
      }
    }
  }

  method ClampDuration(d: int, max: int) returns (r: int)
    ensures r == Clamp(d, max)
  {
    if d > max {
      return max;
    }
    return d;
  }

  lemma RoomsInOrder(resp: Response)
    ensures var rooms := Rooms(resp);
            && |rooms| == |resp.join| + |resp.leave| && rooms[..|rooms|] == rooms
            && (forall i :: 0 <= i < |resp.join| ==> rooms[i] == RoomItems(resp.join[i], true))
            && (forall i :: 0 <= i < |resp.leave| ==> rooms[|resp.join| + i] == RoomItems(resp.leave[i], false))
  {
    hide RoomItems;
  }

  lemma NothingYet(cfg: Config, cache: set<string>, published: Bus, rooms: seq<seq<Item>>, luck: nat -> Luck)
    ensures Flatten(rooms[..0]) == [] && AfterItems(cfg, cache, published, [], luck, 0) == (cache, published)
  {
  }

  lemma OneMoreRoom(cfg: Config, cache: set<string>, published: Bus, rooms: seq<seq<Item>>, luck: nat -> Luck, i: nat)
    requires i < |rooms|
    ensures var (c, p) := AfterItems(cfg, cache, published, Flatten(rooms[..i]), luck, 0);
            AfterItems(cfg, cache, published, Flatten(rooms[..i + 1]), luck, 0) ==
            AfterItems(cfg, c, p, rooms[i], luck, |Flatten(rooms[..i])|)
    ensures |Flatten(rooms[..i + 1])| == |Flatten(rooms[..i])| + |rooms[i]|
  {
    assert rooms[..i + 1][..i] == rooms[..i];
    AfterConcat(cfg, cache, published, Flatten(rooms[..i]), rooms[i], luck, 0);
    hide AfterItems;
  }

  class SyncManager {
    const cfg: Config
    var token: string       // sync_state.next_batch
    var cache: set<string>  // event_cache
    var published: Bus

    constructor (cfg: Config, token: string, cache: set<string>)
      ensures this.cfg == cfg && this.token == token && this.cache == cache && published == multiset{}
    {
      this.cfg := cfg;
      this.token, this.cache, published := token, cache, multiset{};
    }

    method IsSeen(id: string, lookupFails: bool) returns (isNew: bool)
      ensures isNew <==> id == "" || lookupFails || id !in cache
    {
      if id == "" {
        return true;
      }
      if lookupFails {
        return true;
      }
      return id !in cache;
    }

    method MarkSeen(id: string, fault: Fault)
      modifies this`cache
      ensures cache == if id == "" || fault == BeforeWrite then old(cache) else old(cache) + {id}
    {
      if id != "" && fault != BeforeWrite {
        cache := cache + {id};
      }
    }

    /** The typed handlers: check, publish, mark. */
    method DispatchPlain(e: Event, luck: Luck)
      modifies this`cache, this`published
      ensures match DisposePlain(cfg, e)
              case Check(env) =>
                if IsNew(old(cache), e.id, luck.lookupFails)
                then cache == Marked(old(cache), e.id, luck.insert) && published == old(published) + multiset{env}
                else cache == old(cache) && published == old(published)
              case MarkOnly => cache == Marked(old(cache), e.id, luck.insert) && published == old(published)
              case _ => cache == old(cache) && published == old(published)
    {
      match DisposePlain(cfg, e)
      case Check(env) =>
        var isNew := IsSeen(e.id, luck.lookupFails);
        if !isNew {
          return;
        }
        published := published + multiset{env};
        MarkSeen(e.id, luck.insert);
      case MarkOnly => MarkSeen(e.id, luck.insert);
      case _ =>
    }

    method DispatchEvent(e: Event, luck: Luck)
      modifies this`cache, this`published
      ensures (cache, published) == Dispatched(cfg, old(cache), old(published), e, luck)
    {
      match Dispose(cfg, e)
      case Ignore =>
      case MarkOnly => MarkSeen(e.id, luck.insert);
      case Check(_) => DispatchPlain(e, luck);
      case Decrypt =>
        if luck.decrypts {
          DispatchPlain(e, luck);
        } else {
          published := published + multiset{FailureOf(cfg, e)};
        }
    }

    /** Dispatches a list of events; op numbers the items of the batch. */
    method DispatchEvents(es: seq<Event>, luck: nat -> Luck, op: nat)
      modifies this`cache, this`published
      ensures (cache, published) == AfterItems(cfg, old(cache), old(published), TimelineItems(es), luck, op)
    {
      hide Dispatched;
      var items := TimelineItems(es);
      for k := 0 to |es|
        invariant (cache, published) == AfterItems(cfg, old(cache), old(published), items[..k], luck, op)
      {
        AfterOneMore(cfg, old(cache), old(published), items, luck, op, k);
        DispatchEvent(es[k], luck(op + k));
      }
      assert items[..|es|] == items;
    }

    method DispatchReceipts(receipts: seq<ReadReceipt>, ghost luck: nat -> Luck, ghost op: nat)
      modifies this`published
      ensures (cache, published) == AfterItems(cfg, old(cache), old(published), ReceiptItems(receipts), luck, op)
    {
      ghost var items := ReceiptItems(receipts);
      for k := 0 to |receipts|
        invariant (cache, published) == AfterItems(cfg, old(cache), old(published), items[..k], luck, op)
      {
        AfterOneMore(cfg, old(cache), old(published), items, luck, op, k);
        published := published + multiset{ReceiptOf(cfg, receipts[k])};
      }
      assert items[..|receipts|] == items;
    }

    /** State, then timeline, then, for a joined room, receipts. */
    method DispatchRoom(room: Room, joined: bool, luck: nat -> Luck, op: nat)
      modifies this`cache, this`published
      ensures (cache, published) == AfterItems(cfg, old(cache), old(published), RoomItems(room, joined), luck, op)
    {
      hide AfterItems;
      ghost var s, t, r := TimelineItems(room.state), TimelineItems(room.timeline), ReceiptItems(room.receipts);
      DispatchEvents(room.state, luck, op);
      DispatchEvents(room.timeline, luck, op + |room.state|);
      AfterConcat(cfg, old(cache), old(published), s, t, luck, op);
      assert s + t + [] == s + t;
      if joined {
        DispatchReceipts(room.receipts, luck, op + |s + t|);
        AfterConcat(cfg, old(cache), old(published), s + t, r, luck, op);
      }
    }

    /** Dispatches the i-th room of a response whose first i rooms have been dispatched. */
    method DispatchNext(room: Room, joined: bool, luck: nat -> Luck, op: nat, ghost rooms: seq<seq<Item>>, ghost i: nat,
                        ghost cache0: set<string>, ghost published0: Bus)
      returns (next: nat)
      requires i < |rooms| && rooms[i] == RoomItems(room, joined) && op == |Flatten(rooms[..i])|
      requires (cache, published) == AfterItems(cfg, cache0, published0, Flatten(rooms[..i]), luck, 0)
      modifies this`cache, this`published
      ensures (cache, published) == AfterItems(cfg, cache0, published0, Flatten(rooms[..i + 1]), luck, 0)
      ensures next == |Flatten(rooms[..i + 1])|
    {
      hide AfterItems, RoomItems, Flatten;
      OneMoreRoom(cfg, cache0, published0, rooms, luck, i);
      DispatchRoom(room, joined, luck, op);
      next := op + |RoomItems(room, joined)|;
    }

    /** One of the two loops over rooms, which stand from `first` on in the response. */
    method DispatchRooms(list: seq<Room>, joined: bool, patience: nat, luck: nat -> Luck, first: nat, op: nat,
                         ghost rooms: seq<seq<Item>>, ghost cache0: set<string>, ghost published0: Bus)
      returns (next: nat, done: nat)
      requires first + |list| <= |rooms| && first <= patience && op == |Flatten(rooms[..first])|
      requires forall i :: 0 <= i < |list| ==> rooms[first + i] == RoomItems(list[i], joined)
      requires (cache, published) == AfterItems(cfg, cache0, published0, Flatten(rooms[..first]), luck, 0)
      modifies this`cache, this`published
      ensures done == if first + |list| <= patience then |list| else patience - first
      ensures next == |Flatten(rooms[..first + done])|
      ensures (cache, published) == AfterItems(cfg, cache0, published0, Flatten(rooms[..first + done]), luck, 0)
    {
      hide AfterItems, RoomItems, Flatten;
      next, done := op, 0;
      while done < |list| && first + done < patience
        invariant done <= |list| && first + done <= patience && next == |Flatten(rooms[..first + done])|
        invariant (cache, published) == AfterItems(cfg, cache0, published0, Flatten(rooms[..first + done]), luck, 0)
      {
        next := DispatchNext(list[done], joined, luck, next, rooms, first + done, cache0, published0);
        done := done + 1;
      }
    }

    /** Publishes a response room by room until the context is found cancelled, which checks
        0..patience-1 do not. */
    method ProcessResponse(resp: Response, patience: nat, luck: nat -> Luck)
      modifies this`cache, this`published
      ensures (cache, published) == AfterResponse(cfg, old(cache), old(published), resp, patience, luck)
    {
      ghost var rooms := Rooms(resp);
      RoomsInOrder(resp);
      NothingYet(cfg, cache, published, rooms, luck);
      hide AfterItems, RoomItems, Flatten, Rooms;
      var op, done := DispatchRooms(resp.join, true, patience, luck, 0, 0, rooms, cache, published);
      if done < |resp.join| {
        return;
      }
      op, done := DispatchRooms(resp.leave, false, patience, luck, |resp.join|, op, rooms, old(cache), old(published));
    }

    /** The loop over the given answers. */
    method Run(answers: seq<Answer>, loadFails: bool) returns (asked: seq<string>, waits: seq<int>)
      modifies this`token, this`cache, this`published
      ensures var l := AfterAnswers(cfg, Started(old(token), old(cache), old(published), loadFails), answers);
              token == l.token && cache == l.cache && published == l.published && asked == l.asked && waits == l.waits
    {
      var since, backoff := if loadFails then "" else token, SECOND;
      asked, waits := [], [];
      ghost var start := Started(token, cache, published, loadFails);
      hide AfterResponse, Rooms;
      for n := 0 to |answers|
        invariant AfterAnswers(cfg, start, answers[..n])
            == Loop(token, since, cache, published, backoff, asked, waits, false)
      {
        AfterOneMoreAnswer(cfg, start, answers, n);
        hide AfterAnswers;
        if answers[n].Cancelled? {
          StoppedStays(cfg, start, answers, n + 1);
          return;
        }
        asked := asked + [since];
        match answers[n]
        case RequestFailed(cancel) =>
          if cancel == AfterRequest {
            StoppedStays(cfg, start, answers, n + 1);
            return;
          }
          waits := waits + [backoff];
          if cancel == DuringWait {
            StoppedStays(cfg, start, answers, n + 1);
            return;
          }
          backoff := ClampDuration(backoff * 2, MAX_BACKOFF);
        case Answered(resp, patience, luck, tokenFault) =>
          backoff := SECOND;
          ProcessResponse(resp, patience, luck);
          if patience <= |Rooms(resp)| {
            StoppedStays(cfg, start, answers, n + 1);
            return;
          }
          since := resp.nextBatch;
          if tokenFault != BeforeWrite {
            token := since;
          }
      }
      assert answers[..|answers|] == answers;
    }
  }
}
