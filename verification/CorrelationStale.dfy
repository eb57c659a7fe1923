/** Two runs of the correlation protocol in which a receive returns an event published before
    it was registered: one with the event still in the channel at registration, one with it
    already in the dispatcher's hand. */
module CorrelationStale {
  import opened Wrappers
  import opened Events
  import opened Filter
  import opened Bus
  import opened QueueStore
  import opened Correlation
  import opened CorrelationTheorems

  const TOPIC: EventType := "inbound.message"

  const STALE: Envelope := Envelope(TOPIC, "bot", "!room", Message("$1", "@alice", "early", "", None, 0))

  lemma StaleIsInbound()
    ensures TOPIC in INBOUND_TYPES && STALE.eventType == TOPIC
  {
    assert INBOUND_TYPES[0] == TOPIC;
  }

  /** The registration step of the run. */
  function ListAt(inHand: bool): nat {
    if inHand then 3 else 2
  }

  function StaleStep(inHand: bool, i: nat): Step {
    if i == 0 then Publish(STALE)
    else if i == ListAt(inHand) - 1 then Insert("r", Kind.Receive, "bot", None, 5, 1, NoFault)
    else if i == ListAt(inHand) then OnHandle("r", List)
    else if i < 4 then OnDispatch(TOPIC, TakeEvent)
    else if i == 4 then OnDispatch(TOPIC, Match([], ["r"]))
    else if i == 5 then OnDispatch(TOPIC, CollectNext)
    else if i == 6 then OnHandle("r", ResolverWins)
    else OnHandle("r", Advance(NoFault))
  }

  function StaleSteps(inHand: bool): seq<Step> {
    seq(8, i requires 0 <= i < 8 => StaleStep(inHand, i))
  }

  function StaleInbox(taken: bool): map<EventType, Channel> {
    map[TOPIC := if taken then Channel([], 0, [STALE], [STALE]) else Channel([STALE], 0, [STALE], [])]
  }

  function StaleHandle(inHand: bool, i: nat): Handle {
    var h := NewHandle(Kind.Receive, "bot", None, 5, 1);
    var listed := h.(published := true, origin := StaleInbox(false));
    var full := listed.(collected := [STALE], launched := 1, resolvers := 1);
    if i <= ListAt(inHand) then h else if i <= 5 then listed
    else if i == 6 then full
    else if i == 7 then full.(once := Running(Window(Resolved), Snapshot, []))
    else full.(once := Running(Window(Resolved), Emit, [STALE]))
  }

  function StaleDispatch(i: nat): Dispatch {
    Dispatch(STALE, i > 4, [], if i == 5 then ["r"] else [])
  }

  function StaleState(inHand: bool, i: nat): State {
    var taken := if inHand then i >= 2 else i >= 4;
    var inserted := if inHand then i >= 3 else i >= 2;
    State(0,
          if inserted then map["r" := StaleHandle(inHand, i)] else map[],
          if i > ListAt(inHand) then {"r"} else {},
          if inserted then map["r" := CorrelationRow(RowState.Pending, 0)] else map[],
          if i < 1 then map[] else StaleInbox(taken),
          if taken then map[TOPIC := StaleDispatch(i)] else map[],
          NoSweep)
  }

  ghost predicate StaleTransition(re: Regexp, inHand: bool, i: nat)
    requires i < 8
  {
    && Enabled(re, StaleState(inHand, i), StaleStep(inHand, i))
    && StaleState(inHand, i + 1) == Apply(re, StaleState(inHand, i), StaleStep(inHand, i))
  }

  lemma StalePublish(re: Regexp, inHand: bool)
    ensures StaleTransition(re, inHand, 0)
  {
    hide TOPIC, STALE, INBOUND_TYPES;
    StaleIsInbound();
    assert Offer(EMPTY_CHANNEL, STALE) == StaleInbox(false)[TOPIC];
    hide ApplyDispatch, DispatchEnabled, Offer, ApplyHandle, HandleEnabled;
  }

  lemma StaleTake(re: Regexp, inHand: bool)
    ensures StaleTransition(re, inHand, if inHand then 1 else 3)
  {
    hide TOPIC, STALE, INBOUND_TYPES;
    StaleIsInbound();
    assert Take(StaleInbox(false)[TOPIC]) == StaleInbox(true)[TOPIC];
    hide Take, ApplyHandle, HandleEnabled;
  }

  lemma StaleInsert(re: Regexp, inHand: bool)
    ensures StaleTransition(re, inHand, ListAt(inHand) - 1)
  {
    hide TOPIC, STALE, INBOUND_TYPES;
    StaleIsInbound();
    hide ApplyDispatch, DispatchEnabled, ApplyHandle, HandleEnabled;
  }

  /** The message is unmatched at registration in both runs. */
  lemma StaleList(re: Regexp, inHand: bool)
    ensures StaleTransition(re, inHand, ListAt(inHand))
  {
    hide TOPIC, STALE, INBOUND_TYPES;
    StaleIsInbound();
    var s := StaleState(inHand, ListAt(inHand));
    assert AllUnmatched(s) == StaleInbox(false) by {
      assert s.inbox.Keys + s.dispatch.Keys == {TOPIC};
      assert Unmatched(s, TOPIC) == StaleInbox(false)[TOPIC];
    }
    hide ApplyDispatch, DispatchEnabled, AllUnmatched;
    var none: set<string> := {};
    assert none + {"r"} == {"r"};
  }

  lemma StaleMatches(re: Regexp, inHand: bool)
    ensures ExactlyTheMatches(re, StaleState(inHand, 4), Ask, STALE, [])
    ensures ExactlyTheMatches(re, StaleState(inHand, 4), Kind.Receive, STALE, ["r"])
  {
  }

  lemma StaleMatch(re: Regexp, inHand: bool)
    ensures StaleTransition(re, inHand, 4)
  {
    hide TOPIC, STALE, INBOUND_TYPES;
    StaleIsInbound();
    StaleMatches(re, inHand);
    hide ExactlyTheMatches, ApplyHandle, HandleEnabled, StaleInbox;
  }

  lemma StaleHandleSteps(inHand: bool)
    ensures Collect(StaleHandle(inHand, 5), STALE) == StaleHandle(inHand, 6)
    ensures Win(StaleHandle(inHand, 6), Window(Resolved)) == StaleHandle(inHand, 7)
    ensures AdvanceHandle(StaleHandle(inHand, 7), NoFault) == StaleHandle(inHand, 8)
  {
    hide TOPIC, STALE;
  }

  lemma StaleCollect(re: Regexp, inHand: bool)
    ensures StaleTransition(re, inHand, 5)
  {
    hide TOPIC, STALE, INBOUND_TYPES;
    StaleIsInbound();
    StaleHandleSteps(inHand);
    hide ExactlyTheMatches, ApplyHandle, HandleEnabled, Collect, StaleInbox, AtLimit;
    var no: seq<string> := [];
    assert ["r"][1..] == no;
  }

  lemma StaleWin(re: Regexp, inHand: bool)
    ensures StaleTransition(re, inHand, 6)
  {
    hide TOPIC, STALE, INBOUND_TYPES;
    StaleHandleSteps(inHand);
    hide ApplyDispatch, DispatchEnabled, StaleInbox, Win;
  }

  lemma StaleSnapshot(re: Regexp, inHand: bool)
    ensures StaleTransition(re, inHand, 7)
  {
    hide TOPIC, STALE, INBOUND_TYPES;
    StaleHandleSteps(inHand);
    hide ApplyDispatch, DispatchEnabled, StaleInbox, AdvanceHandle;
  }

  lemma StaleTransitions(re: Regexp, inHand: bool, i: nat)
    requires i < 8
    ensures StaleTransition(re, inHand, i)
  {
    hide StaleTransition;
    StalePublish(re, inHand);
    StaleTake(re, inHand);
    StaleInsert(re, inHand);
    StaleList(re, inHand);
    StaleMatch(re, inHand);
    StaleCollect(re, inHand);
    StaleWin(re, inHand);
    StaleSnapshot(re, inHand);
  }

  lemma StaleEnds(inHand: bool)
    ensures |StaleSteps(inHand)| == 8 && StaleState(inHand, 0) == Init(0, map[])
    ensures StaleSteps(inHand)[ListAt(inHand)] == OnHandle("r", List)
    ensures StaleSteps(inHand)[7] == OnHandle("r", Advance(NoFault))
    ensures forall i :: ListAt(inHand) <= i < 7 ==> !StaleSteps(inHand)[i].Publish?
    ensures var s := StaleState(inHand, 7);
            && "r" in s.handles && s.handles["r"].once.Running?
            && s.handles["r"].once.stage == Snapshot && s.handles["r"].collected == [STALE]
    ensures var s := StaleState(inHand, ListAt(inHand));
            inHand <==> Inbox(s.inbox, TOPIC).buffer == []
  {
  }

  /** It does happen, in both ways: a message published before the receive exists is its whole
      result, and nothing is published while it is registered. */
  lemma StaleEventIsReturned(re: Regexp, inHand: bool) returns (states: seq<State>)
    ensures IsRun(re, StaleSteps(inHand), states) && StaleSteps(inHand)[ListAt(inHand)] == OnHandle("r", List)
    ensures SnapshotAt(StaleSteps(inHand), states, 7, "r", [STALE])
    ensures forall i :: ListAt(inHand) <= i < 7 ==> !StaleSteps(inHand)[i].Publish?
    ensures inHand <==> Inbox(states[ListAt(inHand)].inbox, TOPIC).buffer == []
  {
    states := seq(9, i requires 0 <= i < 9 => StaleState(inHand, i));
    StaleEnds(inHand);
    hide Enabled, Apply, StaleState, StaleSteps;
    forall i: nat | i < 8
      ensures Enabled(re, states[i], StaleSteps(inHand)[i])
      ensures states[i + 1] == Apply(re, states[i], StaleSteps(inHand)[i])
    {
      StaleTransitions(re, inHand, i);
    }
  }
}
