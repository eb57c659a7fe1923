/** Publishers in flight under the bus's reader/writer lock: a publisher holds the read lock
    for its whole pass over the list it looked up; subscribe and unsubscribe are writers. */
module BusLock {
  import opened Events
  import opened Bus
  import opened Subsequence

  /** A publisher that has sent to list[..sent]. */
  datatype Publisher = Publisher(eventType: EventType, list: SubList, sent: nat)

  datatype State = State(
    subs: map<string, Subscription>,
    byType: map<EventType, SubList>,
    closes: map<Subscription, nat>,  // how often each channel was closed
    history: seq<Subscription>,      // every subscription made, in order
    publishers: map<nat, Publisher>)

  datatype Step =
    | Lookup(p: nat, eventType: EventType)
    | Send(p: nat)
    | Unlock(p: nat)
    | Subscribe(s: Subscription)
    | Unsubscribe(id: string)

  function Closes(s: State, sub: Subscription): nat {
    if sub in s.closes then s.closes[sub] else 0
  }

  predicate Enabled(s: State, step: Step) {
    match step
    case Lookup(p, _) => p !in s.publishers
    case Send(p) => p in s.publishers && s.publishers[p].sent < |s.publishers[p].list|
    case Unlock(p) => p in s.publishers && s.publishers[p].sent == |s.publishers[p].list|
    case Subscribe(sub) => s.publishers == map[] && sub.id !in s.subs && Closes(s, sub) == 0
    case Unsubscribe(_) => s.publishers == map[]
  }

  function Apply(s: State, step: Step): State
    requires Enabled(s, step)
  {
    match step
    case Lookup(p, t) => s.(publishers := s.publishers[p := Publisher(t, ListFor(s.byType, t), 0)])
    case Send(p) =>
      s.(publishers := s.publishers[p := s.publishers[p].(sent := s.publishers[p].sent + 1)])
    case Unlock(p) => s.(publishers := s.publishers - {p})
    case Subscribe(sub) =>
      s.(history := s.history + [sub],
         subs := s.subs[sub.id := sub],
         byType := s.byType[sub.eventType := ListFor(s.byType, sub.eventType) + [sub]])
    case Unsubscribe(id) =>
      if id !in s.subs then s else
      var sub := s.subs[id];
      s.(subs := s.subs - {id},
         byType := s.byType[sub.eventType := Without(ListFor(s.byType, sub.eventType), id)],
         closes := s.closes[sub := Closes(s, sub) + 1])
  }

  /** The live subscriptions of a type, in the order in which they subscribed. */
  function Live(subs: map<string, Subscription>, t: EventType): Subscription -> bool {
    (x: Subscription) => x.eventType == t && x.id in subs && subs[x.id] == x
  }

  ghost predicate InOrder(subs: map<string, Subscription>, byType: map<EventType, SubList>, history: SubList) {
    forall t :: ListFor(byType, t) == Select(Live(subs, t), history)
  }

  ghost predicate Inv(s: State) {
    && Agree(s.subs, s.byType) && InOrder(s.subs, s.byType, s.history)
    && (forall x :: x in s.history && Closes(s, x) == 0 ==> x.id in s.subs && s.subs[x.id] == x)
    && (forall id :: id in s.subs ==> Closes(s, s.subs[id]) == 0)
    && (forall sub :: sub in s.closes ==> s.closes[sub] <= 1)
    && (forall p :: p in s.publishers ==>
          s.publishers[p].list == ListFor(s.byType, s.publishers[p].eventType)
          && s.publishers[p].sent <= |s.publishers[p].list|)
  }

  lemma LiveAdd(subs: map<string, Subscription>, history: SubList, sub: Subscription, t: EventType)
    requires sub.id !in subs && sub !in history
    ensures Select(Live(subs[sub.id := sub], t), history + [sub])
         == var live := Select(Live(subs, t), history); if t == sub.eventType then live + [sub] else live
  {
    hide Select;
    SelectAgree(Live(subs, t), Live(subs[sub.id := sub], t), history);
    SelectSnoc(Live(subs[sub.id := sub], t), history, sub);
  }

  lemma OrderSubscribe(subs: map<string, Subscription>, byType: map<EventType, SubList>, history: SubList,
                       sub: Subscription)
    requires InOrder(subs, byType, history) && sub.id !in subs && sub !in history
    ensures InOrder(subs[sub.id := sub], byType[sub.eventType := ListFor(byType, sub.eventType) + [sub]],
                    history + [sub])
  {
    hide Select, Live;
    var subs', byType' := subs[sub.id := sub], byType[sub.eventType := ListFor(byType, sub.eventType) + [sub]];
    forall t ensures ListFor(byType', t) == Select(Live(subs', t), history + [sub]) {
      LiveAdd(subs, history, sub, t);
    }
  }

  lemma OrderUnsubscribe(subs: map<string, Subscription>, byType: map<EventType, SubList>, history: SubList,
                         id: string)
    requires InOrder(subs, byType, history) && Agree(subs, byType) && id in subs
    ensures var sub := subs[id];
            InOrder(subs - {id}, byType[sub.eventType := Without(ListFor(byType, sub.eventType), id)], history)
  {
    var sub, subs' := subs[id], subs - {id};
    var byType' := byType[sub.eventType := Without(ListFor(byType, sub.eventType), id)];
    AgreeEntry(subs, byType, id);
    AgreeRemove(subs, byType, sub);
    hide Select, Agree;
    forall t ensures ListFor(byType', t) == Select(Live(subs', t), history) {
      SelectSelect(Live(subs, t), OtherThan(id), Live(subs', t), history);
    }
  }

  lemma InvSubscribe(s: State, sub: Subscription)
    requires Inv(s) && Enabled(s, Subscribe(sub))
    ensures Inv(Apply(s, Subscribe(sub)))
  {
    hide Agree, InOrder;
    AgreeAdd(s.subs, s.byType, sub);
    OrderSubscribe(s.subs, s.byType, s.history, sub);
  }

  lemma InvUnsubscribe(s: State, id: string)
    requires Inv(s) && Enabled(s, Unsubscribe(id))
    ensures Inv(Apply(s, Unsubscribe(id)))
  {
    hide Agree, Without, InOrder;
    if id in s.subs {
      AgreeEntry(s.subs, s.byType, id);
      AgreeRemove(s.subs, s.byType, s.subs[id]);
      OrderUnsubscribe(s.subs, s.byType, s.history, id);
      hide ListFor;
    }
  }

  lemma InvStep(s: State, step: Step)
    requires Inv(s) && Enabled(s, step)
    ensures Inv(Apply(s, step))
  {
    hide Agree, Without, InOrder;
    match step
    case Subscribe(sub) => InvSubscribe(s, sub);
    case Unsubscribe(id) => InvUnsubscribe(s, id);
    case _ =>
  }

  ghost predicate IsRun(steps: seq<Step>, states: seq<State>) {
    && |states| == |steps| + 1
    && states[0] == State(map[], map[], map[], [], map[])
    && forall i {:trigger steps[i]} :: 0 <= i < |steps| ==>
         Enabled(states[i], steps[i]) && states[i + 1] == Apply(states[i], steps[i])
  }

  lemma {:induction false} InvAlways(steps: seq<Step>, states: seq<State>, i: nat)
    requires IsRun(steps, states) && i < |states|
    ensures Inv(states[i])
  {
    hide Apply, Enabled;
    if i > 0 {
      InvAlways(steps, states, i - 1);
      InvStep(states[i - 1], steps[i - 1]);
    }
  }

  /** In every reachable state the indexes agree, every list holds exactly the live
      subscriptions of its type in the order in which they subscribed, exactly the channels
      of the others have been closed, each once, and the list of every publisher in flight is
      still the list of its type, its targets all open. */
  lemma PublishersNeverSendOnClosed(steps: seq<Step>, states: seq<State>, i: nat)
    requires IsRun(steps, states) && i < |states|
    ensures var s := states[i];
            && Agree(s.subs, s.byType)
            && (forall t :: ListFor(s.byType, t) == Select(Live(s.subs, t), s.history))
            && (forall sub :: Closes(s, sub) <= 1)
            && (forall sub :: sub in s.history ==>
                  (Closes(s, sub) == 0 <==> sub.id in s.subs && s.subs[sub.id] == sub))
            && (forall p :: p in s.publishers ==>
                  s.publishers[p].list == ListFor(s.byType, s.publishers[p].eventType))
            && forall p, k :: p in s.publishers && 0 <= k < |s.publishers[p].list| ==>
                 var target := s.publishers[p].list[k];
                 target.id in s.subs && s.subs[target.id] == target && Closes(s, target) == 0
  {
    InvAlways(steps, states, i);
    var s := states[i];
    forall p, k | p in s.publishers && 0 <= k < |s.publishers[p].list|
      ensures s.publishers[p].list[k].id in s.subs
              && s.subs[s.publishers[p].list[k].id] == s.publishers[p].list[k]
              && Closes(s, s.publishers[p].list[k]) == 0
    {
      assert ListsLive(s.subs, s.publishers[p].eventType, s.publishers[p].list);
    }
  }
}
