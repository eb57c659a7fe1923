/** The sequential loop of Sync, answer by answer, is a path of the transition system: what
    holds in every run of the protocol holds of the loop that SyncManager.Run computes. */
module SyncRefinement {
  import opened Sync
  import opened SyncProtocol
  import opened SyncTheorems

  ghost predicate Reach(cfg: Config, s: State, s': State) {
    exists steps :: Path(cfg, s, steps, s')
  }

  lemma ReachHere(cfg: Config, s: State)
    ensures Reach(cfg, s, s)
  {
    EmptyPath(cfg, s);
  }

  lemma {:induction false} PathConcat(cfg: Config, s: State, a: seq<Step>, s1: State, b: seq<Step>, s2: State)
    requires Path(cfg, s, a, s1) && Path(cfg, s1, b, s2)
    ensures Path(cfg, s, a + b, s2)
    decreases |a|
  {
    hide Enabled, Apply;
    if a == [] {
      assert a + b == b;
    } else {
      PathConcat(cfg, Apply(cfg, s, a[0]), a[1..], s1, b, s2);
      assert (a + b)[1..] == a[1..] + b;
    }
  }

  lemma ReachTrans(cfg: Config, s: State, s1: State, s2: State)
    requires Reach(cfg, s, s1) && Reach(cfg, s1, s2)
    ensures Reach(cfg, s, s2)
  {
    var a :| Path(cfg, s, a, s1);
    var b :| Path(cfg, s1, b, s2);
    hide Path;
    PathConcat(cfg, s, a, s1, b, s2);
  }

  /** One more step. */
  lemma Then(cfg: Config, s: State, s1: State, step: Step)
    requires Reach(cfg, s, s1) && Enabled(cfg, s1, step)
    ensures Reach(cfg, s, Apply(cfg, s1, step))
  {
    hide Enabled, Apply;
    EmptyPath(cfg, Apply(cfg, s1, step));
    PathCons(cfg, s1, step, [], Apply(cfg, s1, step));
    hide Path;
    ReachTrans(cfg, s, s1, Apply(cfg, s1, step));
  }

  /** The next item of a room. */
  lemma ItemReach(cfg: Config, s: State, luck: Luck) returns (s': State)
    requires AtItem(s) && s.phase.stage == Fresh
    ensures Reach(cfg, s, s') && s'.phase == NextItem(s).phase && s'.token == s.token && s'.cancelled == s.cancelled
    ensures (s'.cache, s'.published) == AfterItem(cfg, s.cache, s.published, s.phase.items[0], luck)
  {
    hide Path, Dispatched;
    if s.phase.items[0].Timeline? {
      var steps;
      steps, s' := DispatchFollowsProtocol(cfg, s, luck);
    } else {
      ReachHere(cfg, s);
      s' := Apply(cfg, s, PublishReceipt);
      hide Reach;
      Then(cfg, s, s, PublishReceipt);
    }
  }

  lemma FirstItem(cfg: Config, cache: set<string>, published: Bus, items: seq<Item>, luck: nat -> Luck, op: nat)
    requires items != []
    ensures var (c, p) := AfterItem(cfg, cache, published, items[0], luck(op));
            AfterItems(cfg, cache, published, items, luck, op) == AfterItems(cfg, c, p, items[1..], luck, op + 1)
  {
    hide AfterItem;
    AfterConcat(cfg, cache, published, [items[0]], items[1..], luck, op);
    assert items == [items[0]] + items[1..];
    AfterOneMore(cfg, cache, published, items, luck, op, 0);
    assert items[..1] == [items[0]] && items[..0] == [];
  }

  /** What is left of a room. */
  lemma {:induction false} ItemsReach(cfg: Config, s: State, luck: nat -> Luck, op: nat) returns (s': State)
    requires s.phase.InBatch? && s.phase.stage == Fresh
    ensures Reach(cfg, s, s') && s'.phase == s.phase.(items := []) && s'.token == s.token
    ensures s'.cancelled == s.cancelled
    ensures (s'.cache, s'.published) == AfterItems(cfg, s.cache, s.published, s.phase.items, luck, op)
    decreases |s.phase.items|
  {
    hide Reach, AfterItem;
    var items := s.phase.items;
    if items == [] {
      s' := s;
      ReachHere(cfg, s);
    } else {
      var s1 := ItemReach(cfg, s, luck(op));
      s' := ItemsReach(cfg, s1, luck, op + 1);
      ReachTrans(cfg, s, s1, s');
      FirstItem(cfg, s.cache, s.published, items, luck, op);
    }
  }

  /** The rooms of a response up to the n-th, uncancelled. */
  lemma {:induction false} RoomsReach(cfg: Config, s: State, resp: Response, luck: nat -> Luck, n: nat)
    returns (s': State)
    requires s.phase.InBatch? && s.phase == InBatch(s.phase.since, resp, 0, [], Fresh) && !s.cancelled
    requires n <= |Rooms(resp)|
    ensures Reach(cfg, s, s') && s'.phase == s.phase.(entered := n) && s'.token == s.token && !s'.cancelled
    ensures (s'.cache, s'.published) == AfterItems(cfg, s.cache, s.published, Flatten(Rooms(resp)[..n]), luck, 0)
  {
    hide Reach, AfterItems, Rooms;
    if n == 0 {
      s' := s;
      ReachHere(cfg, s);
      NoRooms(cfg, s.cache, s.published, Rooms(resp), luck);
    } else {
      var s1 := RoomsReach(cfg, s, resp, luck, n - 1);
      var before := Flatten(Rooms(resp)[..n - 1]);
      var s2 := Apply(cfg, s1, EnterRoom);
      Then(cfg, s, s1, EnterRoom);
      s' := ItemsReach(cfg, s2, luck, |before|);
      ReachTrans(cfg, s, s2, s');
      AfterConcat(cfg, s.cache, s.published, before, Rooms(resp)[n - 1], luck, 0);
      assert Rooms(resp)[..n][..n - 1] == Rooms(resp)[..n - 1];
    }
  }

  lemma NoRooms(cfg: Config, cache: set<string>, published: Bus, rooms: seq<seq<Item>>, luck: nat -> Luck)
    ensures AfterItems(cfg, cache, published, Flatten(rooms[..0]), luck, 0) == (cache, published)
  {
  }

  /** The loop's variables and stores, as the protocol's state. */
  predicate Shows(s: State, l: Loop) {
    && s.token == l.token && s.cache == l.cache && s.published == l.published
    && (if l.stopped then s.phase.Down? else s.phase == Polling(l.since) && !s.cancelled)
  }

  /** Found cancelled while polling. */
  lemma CancelReach(cfg: Config, from: State, s: State) returns (s': State)
    requires Reach(cfg, from, s)
    requires s.phase.Polling? || (s.phase.InBatch? && s.phase.items == [])
    ensures Reach(cfg, from, s') && s' == s.(phase := Down, cancelled := true)
  {
    hide Reach;
    var s1 := Apply(cfg, s, Cancel);
    Then(cfg, from, s, Cancel);
    s' := Apply(cfg, s1, Stop);
    Then(cfg, from, s1, Stop);
  }

  /** A response: its rooms as far as they are reached, then the token or the stop. */
  lemma ResponseReach(cfg: Config, s: State, l: Loop, answer: Answer) returns (s': State)
    requires Shows(s, l) && !l.stopped && answer.Answered? && HonestResponse(cfg, answer.resp)
    ensures Reach(cfg, s, s') && Shows(s', AfterAnswer(cfg, l, answer))
  {
    hide Reach, AfterItems, Rooms, Flatten;
    var Answered(resp, patience, luck, tokenFault) := answer;
    var rooms := Rooms(resp);
    var n := if patience < |rooms| then patience else |rooms|;
    assert rooms[..|rooms|] == rooms;
    ReachHere(cfg, s);
    var s1 := Apply(cfg, s, Respond(resp));
    Then(cfg, s, s, Respond(resp));
    var s2 := RoomsReach(cfg, s1, resp, luck, n);
    ReachTrans(cfg, s, s1, s2);
    assert (s2.cache, s2.published) == AfterResponse(cfg, l.cache, l.published, resp, patience, luck);
    hide AfterResponse;
    if patience <= |rooms| {
      s' := CancelReach(cfg, s, s2);
    } else {
      var s3 := Apply(cfg, s2, EndBatch);
      Then(cfg, s, s2, EndBatch);
      s' := Apply(cfg, s3, PersistToken(tokenFault));
      Then(cfg, s, s3, PersistToken(tokenFault));
    }
  }

  lemma AnswerReach(cfg: Config, s: State, l: Loop, answer: Answer) returns (s': State)
    requires Shows(s, l) && (answer.Answered? ==> HonestResponse(cfg, answer.resp))
    ensures Reach(cfg, s, s') && Shows(s', AfterAnswer(cfg, l, answer))
  {
    hide Reach, HonestResponse, AfterResponse, Rooms;
    ReachHere(cfg, s);
    if l.stopped {
      s' := s;
    } else {
      match answer
      case Cancelled => s' := CancelReach(cfg, s, s);
      case RequestFailed(cancel) =>
        s' := Apply(cfg, s, RequestFails);
        Then(cfg, s, s, RequestFails);
        if cancel != NotCancelled {
          s' := CancelReach(cfg, s, s');
        }
      case Answered(_, _, _, _) => s' := ResponseReach(cfg, s, l, answer);
    }
  }

  /** A whole call of the loop, from a process that is down: the tokens, the cache and the bus
      that SyncManager.Run leaves are those of a path of the protocol, which ends polling with
      the loop's token, or down if the loop has stopped. */
  lemma {:induction false} RunFollowsProtocol(cfg: Config, s: State, answers: seq<Answer>, loadFails: bool)
    returns (s': State)
    requires s.phase.Down? && HonestAnswers(cfg, answers)
    ensures Reach(cfg, s, s')
    ensures Shows(s', AfterAnswers(cfg, Started(s.token, s.cache, s.published, loadFails), answers))
    decreases |answers|
  {
    hide Reach, HonestResponse, AfterAnswer;
    var start := Started(s.token, s.cache, s.published, loadFails);
    if answers == [] {
      ReachHere(cfg, s);
      s' := Apply(cfg, s, Start(loadFails));
      Then(cfg, s, s, Start(loadFails));
    } else {
      var init := answers[..|answers| - 1];
      var s1 := RunFollowsProtocol(cfg, s, init, loadFails);
      s' := AnswerReach(cfg, s1, AfterAnswers(cfg, start, init), answers[|answers| - 1]);
      ReachTrans(cfg, s, s1, s');
    }
  }
}
