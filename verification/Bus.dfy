/** The in-process event bus (internal/bus/local.go): bounded lossy channels, and the two
    indexes over the live subscriptions. */
module Bus {
  import opened Events
  import opened Subsequence

  const CHANNEL_SIZE: nat := 256

  /** A subscriber's buffered channel, with the history of what was offered to it and what
      its handler has been called with. */
  datatype Channel = Channel(
    buffer: seq<Envelope>,
    dropped: nat,
    offered: seq<Envelope>,
    handled: seq<Envelope>)

  const EMPTY_CHANNEL: Channel := Channel([], 0, [], [])

  /** The non-blocking send. */
  function Offer(c: Channel, env: Envelope): Channel {
    if |c.buffer| < CHANNEL_SIZE then c.(buffer := c.buffer + [env], offered := c.offered + [env])
    else c.(dropped := c.dropped + 1, offered := c.offered + [env])
  }

  /** The dispatch goroutine takes the oldest buffered event and calls the handler. */
  function Take(c: Channel): Channel
    requires c.buffer != []
  {
    c.(buffer := c.buffer[1..], handled := c.handled + [c.buffer[0]])
  }

  /** Handled, buffered and dropped add up to offered; the buffer is bounded; and what gets
      through does so in the order it was offered. */
  ghost predicate Ledger(c: Channel) {
    && |c.offered| == |c.handled| + |c.buffer| + c.dropped
    && |c.buffer| <= CHANNEL_SIZE
    && Subseq(c.handled + c.buffer, c.offered)
  }

  /** An offer is dropped exactly when 256 events are buffered, and is otherwise buffered last;
      nothing else happens. */
  lemma OfferKeepsLedger(c: Channel, env: Envelope)
    requires Ledger(c)
    ensures Ledger(Offer(c, env))
    ensures var c' := Offer(c, env);
            && |c.buffer| <= 256 && c'.offered == c.offered + [env] && c'.handled == c.handled
            && (|c.buffer| == 256 ==> c'.dropped == c.dropped + 1 && c'.buffer == c.buffer)
            && (|c.buffer| < 256 ==> c'.dropped == c.dropped && c'.buffer == c.buffer + [env])
  {
    SubseqSnoc(c.handled + c.buffer, c.offered, env);
    assert c.handled + (c.buffer + [env]) == c.handled + c.buffer + [env];
  }

  lemma TakeKeepsLedger(c: Channel)
    requires Ledger(c) && c.buffer != []
    ensures Ledger(Take(c))
    ensures Take(c).handled == c.handled + [c.buffer[0]] && [c.buffer[0]] + Take(c).buffer == c.buffer
    ensures Take(c).dropped == c.dropped && Take(c).offered == c.offered
  {
    assert Take(c).handled + Take(c).buffer == c.handled + c.buffer;
  }

  /** What was handled since an earlier instant `was` of the channel, then what is buffered. */
  function Flow(was: Channel, c: Channel): seq<Envelope>
    requires |was.handled| <= |c.handled|
  {
    c.handled[|was.handled|..] + c.buffer
  }

  /** First in, first out: the flow starts with the backlog of that instant, and goes on with
      an ordered selection of the offers since. */
  ghost predicate Since(was: Channel, c: Channel) {
    && |was.handled| <= |c.handled| && |was.offered| <= |c.offered|
    && was.buffer <= Flow(was, c)
    && Subseq(Flow(was, c)[|was.buffer|..], c.offered[|was.offered|..])
  }

  lemma SinceStart(c: Channel)
    ensures Since(c, c)
  {
    assert Flow(c, c) == c.buffer;
  }

  /** A non-blocking send, whether or not there was room. */
  predicate IsOffer(c: Channel, c': Channel, env: Envelope) {
    && c'.offered == c.offered + [env] && c'.handled == c.handled
    && (c'.buffer == c.buffer + [env] || c'.buffer == c.buffer)
  }

  lemma SinceOffer(was: Channel, c: Channel, c': Channel, env: Envelope)
    requires Since(was, c) && IsOffer(c, c', env)
    ensures Since(was, c')
  {
    var n, flow := |was.buffer|, Flow(was, c);
    assert c'.offered[|was.offered|..] == c.offered[|was.offered|..] + [env];
    SubseqSnoc(flow[n..], c.offered[|was.offered|..], env);
    hide Subseq;
    if c'.buffer == c.buffer {
      assert Flow(was, c') == flow;
    } else {
      assert Flow(was, c') == flow + [env];
      assert (flow + [env])[n..] == flow[n..] + [env];
    }
  }

  lemma SinceTake(was: Channel, c: Channel)
    requires Since(was, c) && c.buffer != []
    ensures Since(was, Take(c)) && Flow(was, Take(c)) == Flow(was, c)
    ensures Take(c).handled[|was.handled|..] == c.handled[|was.handled|..] + [c.buffer[0]]
  {
    assert Take(c).handled[|was.handled|..] == c.handled[|was.handled|..] + [c.buffer[0]];
    assert Flow(was, Take(c)) == Flow(was, c);
  }

  // # The bus object

  class Subscription {
    const id: string
    const eventType: EventType
    var channel: Channel
    var closed: bool

    constructor (id: string, eventType: EventType)
      ensures this.id == id && this.eventType == eventType && channel == EMPTY_CHANNEL && !closed
    {
      this.id := id;
      this.eventType := eventType;
      channel := EMPTY_CHANNEL;
      closed := false;
    }
  }

  type SubList = seq<Subscription>

  function ListFor(byType: map<EventType, SubList>, t: EventType): SubList {
    if t in byType then byType[t] else []
  }

  /** The two indexes agree: byType[t] lists the live subscriptions of type t, each once. */
  ghost predicate Agree(subs: map<string, Subscription>, byType: map<EventType, SubList>) {
    && (forall id :: id in subs ==> Indexed(subs, byType, id))
    && (forall t :: ListsLive(subs, t, ListFor(byType, t)))
  }

  predicate Indexed(subs: map<string, Subscription>, byType: map<EventType, SubList>, id: string)
    requires id in subs
  {
    subs[id].id == id && subs[id] in ListFor(byType, subs[id].eventType)
  }

  ghost predicate ListsLive(subs: map<string, Subscription>, t: EventType, list: SubList) {
    && (forall s :: s in list ==> s.id in subs && subs[s.id] == s && s.eventType == t)
    && Distinct(list)
  }

  ghost predicate Distinct(list: SubList) {
    forall j, k :: 0 <= j < k < |list| ==> list[j].id != list[k].id
  }

  function OtherThan(id: string): Subscription -> bool {
    (s: Subscription) => s.id != id
  }

  /** The list with the subscription of this id left out. */
  function Without(list: SubList, id: string): SubList {
    Select(OtherThan(id), list)
  }

  lemma WithoutAbsent(list: SubList, id: string)
    requires forall s :: s in list ==> s.id != id
    ensures Without(list, id) == list
  {
    SelectAll(OtherThan(id), list);
  }

  lemma OnlyAt(list: SubList, i: nat, x: Subscription)
    requires i < |list| && Distinct(list) && (x in list[..i] || x in list[i + 1..])
    ensures x.id != list[i].id
  {
    if x in list[..i] {
      var k :| 0 <= k < i && list[..i][k] == x;
      assert list[k] == x;
    } else {
      var k :| 0 <= k < |list| - i - 1 && list[i + 1..][k] == x;
      assert list[i + 1 + k] == x;
    }
  }

  lemma WithoutAt(list: SubList, i: nat)
    requires i < |list| && Distinct(list)
    ensures Without(list, list[i].id) == list[..i] + list[i + 1..]
  {
    var other, before, after := OtherThan(list[i].id), list[..i], list[i + 1..];
    hide Select, Distinct;
    forall x | x in before || x in after ensures other(x) {
      OnlyAt(list, i, x);
    }
    SelectAround(other, before, list[i], after);
    assert list == before + [list[i]] + after;
  }

  lemma WithoutMembers(list: SubList, id: string)
    requires Distinct(list)
    ensures forall s :: s in Without(list, id) <==> s in list && s.id != id
    ensures Distinct(Without(list, id))
  {
    if i :| 0 <= i < |list| && list[i].id == id {
      WithoutAt(list, i);
      hide Without;
      CutMembers(list, i);
    } else {
      WithoutAbsent(list, id);
    }
  }

  lemma CutMembers(list: SubList, i: nat)
    requires i < |list| && Distinct(list)
    ensures var w := list[..i] + list[i + 1..];
            Distinct(w) && forall s :: s in w <==> s in list && s.id != list[i].id
  {
    var w := list[..i] + list[i + 1..];
    forall s | s in list && s.id != list[i].id ensures s in w {
      var k :| 0 <= k < |list| && list[k] == s;
      assert if k < i then w[k] == s else w[k - 1] == s;
    }
    forall k | 0 <= k < |w| ensures w[k] in list && w[k].id != list[i].id {
      assert w[k] == list[if k < i then k else k + 1];
    }
  }

  lemma AgreeAdd(subs: map<string, Subscription>, byType: map<EventType, SubList>, s: Subscription)
    requires Agree(subs, byType) && s.id !in subs
    ensures Agree(subs[s.id := s], byType[s.eventType := ListFor(byType, s.eventType) + [s]])
  {
    var list := ListFor(byType, s.eventType);
    var subs', byType' := subs[s.id := s], byType[s.eventType := list + [s]];
    assert ListsLive(subs, s.eventType, list);
    forall k | 0 <= k < |list| ensures list[k].id != s.id {
      assert list[k] in list;
    }
    assert (list + [s])[|list|] == s;
    forall id | id in subs' ensures Indexed(subs', byType', id) {
      assert id != s.id ==> Indexed(subs, byType, id);
    }
    forall t ensures ListsLive(subs', t, ListFor(byType', t)) {
      assert ListsLive(subs, t, ListFor(byType, t));
    }
  }

  lemma AgreeRemove(subs: map<string, Subscription>, byType: map<EventType, SubList>, s: Subscription)
    requires Agree(subs, byType) && s.id in subs && subs[s.id] == s
    ensures var byType' := byType[s.eventType := Without(ListFor(byType, s.eventType), s.id)];
            && Agree(subs - {s.id}, byType')
            && forall t :: ListFor(byType', t) == Without(ListFor(byType, t), s.id)
  {
    hide Without, Distinct;
    var subs', byType' := subs - {s.id}, byType[s.eventType := Without(ListFor(byType, s.eventType), s.id)];
    forall t
      ensures ListFor(byType', t) == Without(ListFor(byType, t), s.id)
      ensures ListsLive(subs', t, ListFor(byType', t))
    {
      var list := ListFor(byType, t);
      assert ListsLive(subs, t, list);
      WithoutMembers(list, s.id);
      if t != s.eventType {
        forall x | x in list ensures x.id != s.id {
          assert subs[x.id] == x;
        }
        WithoutAbsent(list, s.id);
      }
      forall x | x in ListFor(byType', t) ensures x.id in subs' && subs'[x.id] == x && x.eventType == t {
        assert x in list && x.id != s.id;
        assert x.id in subs && subs[x.id] == x;
      }
    }
    forall id | id in subs' ensures Indexed(subs', byType', id) {
      assert Indexed(subs, byType, id);
      if subs[id].eventType == s.eventType {
        assert ListsLive(subs, s.eventType, ListFor(byType, s.eventType));
        WithoutMembers(ListFor(byType, s.eventType), s.id);
      }
    }
  }

  lemma AgreeAbsent(subs: map<string, Subscription>, byType: map<EventType, SubList>, id: string)
    requires Agree(subs, byType) && id !in subs
    ensures subs - {id} == subs && forall t :: Without(ListFor(byType, t), id) == ListFor(byType, t)
  {
    hide Without, Distinct;
    forall t ensures Without(ListFor(byType, t), id) == ListFor(byType, t) {
      assert ListsLive(subs, t, ListFor(byType, t));
      WithoutAbsent(ListFor(byType, t), id);
    }
  }

  lemma AgreeEntry(subs: map<string, Subscription>, byType: map<EventType, SubList>, id: string)
    requires Agree(subs, byType) && id in subs
    ensures subs[id].id == id && subs[id] in ListFor(byType, subs[id].eventType)
    ensures Distinct(ListFor(byType, subs[id].eventType))
    ensures forall j :: j in subs && j != id ==> subs[j] != subs[id]
  {
    assert Indexed(subs, byType, id);
    assert ListsLive(subs, subs[id].eventType, ListFor(byType, subs[id].eventType));
    forall j | j in subs ensures subs[j].id == j {
      assert Indexed(subs, byType, j);
    }
  }

  // # Slices

  /** A slice: the first len places of a backing array. */
  datatype Slice = Slice(data: array<Subscription?>, len: nat)

  ghost predicate Holds(list: Slice, subs: SubList)
    reads list.data
  {
    && list.len == |subs| <= list.data.Length
    && forall k :: 0 <= k < list.len ==> list.data[k] == subs[k]
  }

  /** append(list[:i], list[i+1:]...) on the backing array: the tail moves down one place
      in the same array, and the slice is one shorter. */
  method ShiftOut<T>(a: array<T>, n: nat, i: nat)
    requires i < n <= a.Length
    modifies a
    ensures a[..n - 1] == old(a[..n])[..i] + old(a[..n])[i + 1..]
    ensures a[n - 1..] == old(a[n - 1..])
  {
    for j := i to n - 1
      invariant a[..j] == old(a[..n])[..i] + old(a[..n])[i + 1..j + 1]
      invariant a[j..] == old(a[j..])
    {
      a[j] := a[j + 1];
    }
  }

  function At(list: Slice, i: nat, ghost subs: SubList): (s: Subscription)
    requires Holds(list, subs) && i < list.len
    reads list.data
    ensures i < |subs| && s == subs[i]
  {
    list.data[i]
  }

  lemma LengthOf(list: Slice, subs: SubList)
    requires Holds(list, subs)
    ensures list.len == |subs|
  {
  }

  /** append(list, s): in place when there is room, and otherwise into a larger array. */
  method Append(list: Slice, s: Subscription, ghost subs: SubList) returns (longer: Slice)
    requires Holds(list, subs)
    modifies list.data
    ensures Holds(longer, subs + [s])
    ensures longer.data == list.data || fresh(longer.data)
  {
    longer := list;
    if list.len == list.data.Length {
      var data := new Subscription?[2 * list.len + 1];
      for k := 0 to list.len
        invariant forall j :: 0 <= j < k ==> data[j] == subs[j]
        invariant forall j :: 0 <= j < list.len ==> list.data[j] == subs[j]
      {
        data[k] := list.data[k];
      }
      longer := Slice(data, list.len);
    }
    longer.data[list.len] := s;
    longer := longer.(len := list.len + 1);
  }

  /** append(nil, s). */
  method Single(s: Subscription) returns (list: Slice)
    ensures Holds(list, [s]) && fresh(list.data)
  {
    var data := new Subscription?[1];
    data[0] := s;
    list := Slice(data, 1);
  }

  /** append(list[:i], list[i+1:]...): the same array, one place shorter. */
  method Cut(list: Slice, i: nat, ghost subs: SubList) returns (shorter: Slice)
    requires Holds(list, subs) && i < list.len
    modifies list.data
    ensures Holds(shorter, subs[..i] + subs[i + 1..]) && shorter.data == list.data
  {
    ghost var was := list.data[..list.len];
    ShiftOut(list.data, list.len, i);
    shorter := list.(len := list.len - 1);
    assert list.data[..list.len - 1] == was[..i] + was[i + 1..];
    ghost var rest := subs[..i] + subs[i + 1..];
    forall k | 0 <= k < shorter.len ensures list.data[k] == rest[k] {
      assert list.data[k] == list.data[..list.len - 1][k];
      assert list.data[k] == was[if k < i then k else k + 1];
    }
  }

  /** The dispatch loop of Publish. */
  method OfferAll(list: Slice, env: Envelope, ghost subs: SubList)
    requires Holds(list, subs) && Distinct(subs) && forall s :: s in subs ==> !s.closed
    modifies subs
    ensures forall k :: 0 <= k < |subs| ==> subs[k].channel == Offer(old(subs[k].channel), env)
    ensures forall s :: s in subs ==> !s.closed
  {
    hide Offer;
    for i := 0 to list.len
      invariant Holds(list, subs)
      invariant forall k :: 0 <= k < i ==> subs[k].channel == Offer(old(subs[k].channel), env)
      invariant forall k :: i <= k < |subs| ==> subs[k].channel == old(subs[k].channel)
      invariant forall s :: s in subs ==> !s.closed
    {
      var s: Subscription := list.data[i];
      s.channel := Offer(s.channel, env);
    }
  }

  class LocalBus {
    var subs: map<string, Subscription>
    var slices: map<EventType, Slice>
    ghost var byType: map<EventType, SubList>  // what the slices hold

    ghost function Arrays(): set<array<Subscription?>>
      reads this`slices
    {
      set t | t in slices :: slices[t].data
    }

    /** The slices hold the lists, no two of them on one array. */
    ghost predicate Stored()
      reads this`slices, this`byType, Arrays()
    {
      && slices.Keys == byType.Keys
      && (forall t :: t in slices ==> Holds(slices[t], byType[t]))
      && (forall t, u :: t in slices && u in slices && t != u ==> slices[t].data != slices[u].data)
    }

    /** The indexes agree, and no live subscription's channel is closed. */
    ghost predicate Valid()
      reads this, subs.Values, Arrays()
    {
      && Stored() && Agree(subs, byType)
      && forall id :: id in subs ==> !subs[id].closed
    }

    constructor ()
      ensures Valid() && subs == map[] && byType == map[]
    {
      subs := map[];
      slices := map[];
      byType := map[];
    }

    /** Every listed subscription of the event's type is offered the event exactly once, no
        other channel is touched, and no closed channel is sent on. */
    method Publish(env: Envelope)
      requires Valid()
      modifies ListFor(byType, env.eventType)
      ensures Valid()
      ensures forall s :: s in ListFor(byType, env.eventType) ==> s.channel == Offer(old(s.channel), env)
    {
      if env.eventType in slices {
        ghost var list := byType[env.eventType];
        assert ListsLive(subs, env.eventType, ListFor(byType, env.eventType));
        OfferAll(slices[env.eventType], env, list);
      }
    }

    /** The map assignment byType[t] = list, for a list on an array of its own. */
    method Assign(t: EventType, list: Slice, ghost subs: SubList)
      requires slices.Keys == byType.Keys && Holds(list, subs)
      requires forall u :: u in slices && u != t ==> Holds(slices[u], byType[u]) && slices[u].data != list.data
      requires forall u, v :: u in slices && v in slices && u != v ==> slices[u].data != slices[v].data
      modifies this`slices, this`byType
      ensures Stored() && byType == old(byType)[t := subs] && Arrays() <= old(Arrays()) + {list.data}
    {
      hide Holds;
      slices := slices[t := list];
      byType := byType[t := subs];
    }

    /** byType[t] = append(byType[t], s). */
    method EnterList(s: Subscription)
      requires Stored()
      modifies this`slices, this`byType, Arrays()
      ensures Stored()
      ensures byType == old(byType)[s.eventType := ListFor(old(byType), s.eventType) + [s]]
      ensures fresh(Arrays() - old(Arrays()))
    {
      hide Holds;
      var list;
      ghost var subs := ListFor(byType, s.eventType);
      if s.eventType in slices {
        list := Append(slices[s.eventType], s, subs);
      } else {
        list := Single(s);
        assert subs + [s] == [s];
      }
      Assign(s.eventType, list, subs + [s]);
    }

    /** The search loop of Unsubscribe. */
    method LeaveList(t: EventType, id: string)
      requires Stored() && t in byType && Distinct(byType[t])
      modifies this`slices, this`byType, Arrays()
      ensures Stored() && byType == old(byType)[t := Without(old(byType)[t], id)] && Arrays() <= old(Arrays())
    {
      var list := slices[t];
      ghost var subs := byType[t];
      LengthOf(list, subs);
      hide Without, Distinct, Holds;
      for i := 0 to list.len
        invariant Stored() && byType == old(byType) && slices == old(slices)
        invariant forall k :: 0 <= k < i ==> subs[k].id != id
      {
        if At(list, i, subs).id == id {
          WithoutAt(subs, i);
          var shorter := Cut(list, i, subs);
          Assign(t, shorter, subs[..i] + subs[i + 1..]);
          return;
        }
      }
      WithoutAbsent(subs, id);
      assert byType == byType[t := subs];
    }

    /** id is fresh, as a UUID is. */
    method Subscribe(eventType: EventType, id: string) returns (s: Subscription)
      requires Valid() && id !in subs
      modifies this, Arrays()
      ensures Valid() && fresh(s) && fresh(Arrays() - old(Arrays()))
      ensures s.id == id && s.eventType == eventType && s.channel == EMPTY_CHANNEL
      ensures subs == old(subs)[id := s]
      ensures byType == old(byType)[eventType := ListFor(old(byType), eventType) + [s]]
    {
      hide Agree, Stored, ListFor;
      s := new Subscription(id, eventType);
      ghost var was := subs;
      AgreeAdd(subs, byType, s);
      EnterList(s);
      assert forall j :: j in was ==> !was[j].closed;
      subs := subs[id := s];
    }

    /** Removes the subscription from both indexes, keeping the others in order, and closes
        its channel; unknown ids are ignored, so no channel is closed twice. */
    method Unsubscribe(id: string)
      requires Valid()
      modifies this, if id in subs then {subs[id]} else {}, Arrays()
      ensures Valid()
      ensures subs == old(subs) - {id}
      ensures forall t :: ListFor(byType, t) == Without(ListFor(old(byType), t), id)
      ensures id in old(subs) ==> !old(subs[id].closed) && old(subs)[id].closed
    {
      hide Agree, Without, Distinct, ListsLive, Stored;
      if id !in subs {
        AgreeAbsent(subs, byType, id);
        return;
      }
      var s := subs[id];
      AgreeEntry(subs, byType, id);
      AgreeRemove(subs, byType, s);
      assert s.eventType in byType && byType[s.eventType] == ListFor(byType, s.eventType);
      hide ListFor;
      subs := subs - {id};
      LeaveList(s.eventType, id);
      s.closed := true;
    }
  }
}
