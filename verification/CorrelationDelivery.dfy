/** What receives return and what resolves asks, over every run, in terms of what was
    published, what was waiting at registration, and what the handle wants. */
module CorrelationDelivery {
  import opened Wrappers
  import opened Events
  import opened Filter
  import opened Subsequence
  import opened Bus
  import opened Correlation
  import opened CorrelationInvariant
  import opened CorrelationTheorems
  import opened CorrelationAccount
  import opened CorrelationOrder

  /** Every dispatch channel, in every reachable state: handled, buffered and dropped add up
      to what was published, the buffer is bounded, and what got through kept its order. */
  lemma ChannelsKeepLedger(re: Regexp, steps: seq<Step>, states: seq<State>, i: nat, t: EventType)
    requires IsRun(re, steps, states) && i < |states|
    ensures var c := Inbox(states[i].inbox, t);
            && |c.offered| == |c.handled| + |c.buffer| + c.dropped && |c.buffer| <= 256
            && Subseq(c.handled + c.buffer, c.offered)
    ensures Inbox(states[i].inbox, t).offered == Select(OfType(t), Published(steps[..i]))
  {
    OrderAlways(re, steps, states, i);
    assert TypeOk(states[i], t);
    hide Ledger, Select;
    OfferedIsPublished(re, steps, states, i, t);
  }

  function Published(steps: seq<Step>): seq<Envelope> {
    if steps == [] then []
    else
      var last := steps[|steps| - 1];
      Published(steps[..|steps| - 1]) + if last.Publish? then [last.env] else []
  }

  lemma {:induction false} OfferedIsPublished(re: Regexp, steps: seq<Step>, states: seq<State>, i: nat, t: EventType)
    requires IsRun(re, steps, states) && i < |states|
    ensures Inbox(states[i].inbox, t).offered == Select(OfType(t), Published(steps[..i]))
  {
    if i > 0 {
      OfferedIsPublished(re, steps, states, i - 1, t);
      var step := steps[i - 1];
      assert steps[..i][..i - 1] == steps[..i - 1] && steps[..i][i - 1] == step;
      OfferedStep(re, states[i - 1], step, t);
      hide IsRun, Apply, Enabled;
      var before := Published(steps[..i - 1]);
      if step.Publish? {
        SelectSnoc(OfType(t), before, step.env);
      } else {
        assert before + [] == before;
      }
    }
  }

  lemma OfferedStep(re: Regexp, s: State, step: Step, t: EventType)
    requires Enabled(re, s, step)
    ensures Inbox(Apply(re, s, step).inbox, t).offered ==
            Inbox(s.inbox, t).offered + if step.Publish? && step.env.eventType == t then [step.env] else []
  {
    hide ExactlyTheMatches, ApplyHandle;
    match step
    case OnHandle(id, act) => HandleFrame(s, id, act);
    case _ =>
  }

  /** What waits for matching at some moment: the event the dispatcher of type t has in hand,
      if it has not matched it yet, then the buffered ones. */
  function Backlog(s: State, t: EventType): seq<Envelope> {
    (if t in s.dispatch && !s.dispatch[t].matched then [s.dispatch[t].env] else []) + Inbox(s.inbox, t).buffer
  }

  lemma BacklogIsUnmatched(re: Regexp, s: State, t: EventType)
    requires Order(re, s)
    ensures Unmatched(s, t).buffer == Backlog(s, t) && Unmatched(s, t).offered == Inbox(s.inbox, t).offered
  {
    assert TypeOk(s, t);
    hide Ledger, OrderOk;
  }

  /** A handle's origin is what was unmatched at its registration step. */
  lemma OriginIsRegistration(re: Regexp, steps: seq<Step>, states: seq<State>, j: nat, k: nat, id: string)
    requires IsRun(re, steps, states) && j < k < |states| && steps[j] == OnHandle(id, List)
    ensures id in states[k].handles && states[k].handles[id].published
    ensures states[k].handles[id].origin == AllUnmatched(states[j])
    ensures forall t :: Inbox(states[k].handles[id].origin, t) == Unmatched(states[j], t)
  {
    assert Enabled(re, states[j], steps[j]) && states[j + 1] == Apply(re, states[j], steps[j]);
    assert states[j + 1].handles[id].published && states[j + 1].handles[id].origin == AllUnmatched(states[j]);
    hide IsRun, Unmatched;
    LaterAlways(re, steps, states, j + 1, k, id);
    forall t ensures Inbox(AllUnmatched(states[j]), t) == Unmatched(states[j], t) {
      OriginOf(states[j], t);
    }
  }

  // # Receives

  /** The events of type t matched since the handle was registered at step j, and done with
      as far as this handle is concerned. */
  ghost function Served(states: seq<State>, j: nat, k: nat, id: string, t: EventType): seq<Envelope>
    requires j < |states| && k < |states|
    requires |Unmatched(states[j], t).handled| <= |Unmatched(states[k], t).handled|
  {
    Done(Unmatched(states[j], t), Unmatched(states[k], t), InService(states[k], id, t).Some?)
  }

  /** Serving starts with the backlog of registration and goes on with a selection, in publish
      order, of what was published since. */
  ghost predicate ServedInOrder(states: seq<State>, j: nat, k: nat, id: string, t: EventType, n: nat)
    requires j < |states| && k < |states|
  {
    var was, now := Inbox(states[j].inbox, t), Inbox(states[k].inbox, t);
    && |Unmatched(states[j], t).handled| <= |Unmatched(states[k], t).handled| && |was.offered| <= |now.offered|
    && var served, backlog := Served(states, j, k, id, t), Backlog(states[j], t);
       && n <= |served| && n <= |backlog| && (n < |backlog| ==> n == |served|)
       && served[..n] == backlog[..n]
       && Subseq(served[n..], now.offered[|was.offered|..])
  }

  /** The account of a receive at its snapshot. */
  lemma AccountAtSnapshot(re: Regexp, steps: seq<Step>, states: seq<State>, j: nat, k: nat, id: string,
                          t: EventType, events: seq<Envelope>)
    requires IsRun(re, steps, states) && j < k < |steps| && steps[j] == OnHandle(id, List)
    requires SnapshotAt(steps, states, k, id, events)
    requires states[k].handles[id].kind == Kind.Receive
    ensures var h := states[k].handles[id];
            && Account(Matches(re, id, h), t, Unmatched(states[j], t), Unmatched(states[k], t), events, Full(h), true,
                       InService(states[k], id, t))
            && (Full(h) ==> h.limit > 0 && |events| >= h.limit)
  {
    OriginIsRegistration(re, steps, states, j, k, id);
    OrderAlways(re, steps, states, k);
    HandleAlways(re, steps, states, k, id);
    var s, h := states[k], states[k].handles[id];
    assert Tracked(s, id) && OrderOk(re, s, id, t);
    assert id in s.listed;
    hide IsRun, Account, Order, Inv, HandleOk, Unmatched, Matches;
  }

  /** What a receive returns. Per event type, in order: an initial part of the matching
      events served since its registration, and all of them unless the limit was reached. */
  lemma ReceiveReturnsExactly(re: Regexp, steps: seq<Step>, states: seq<State>, j: nat, k: nat, id: string,
                              t: EventType, events: seq<Envelope>)
    returns (n: nat)
    requires IsRun(re, steps, states) && j < k < |steps| && steps[j] == OnHandle(id, List)
    requires SnapshotAt(steps, states, k, id, events)
    requires states[k].handles[id].kind == Kind.Receive
    ensures ServedInOrder(states, j, k, id, t, n)
    ensures var h := states[k].handles[id];
            var mine, due := Select(OfType(t), events), Select(Matches(re, id, h), Served(states, j, k, id, t));
            mine <= due && (h.limit <= 0 || |events| < h.limit ==> mine == due)
  {
    AccountAtSnapshot(re, steps, states, j, k, id, t, events);
    OrderAlways(re, steps, states, j);
    OrderAlways(re, steps, states, k);
    var s, h := states[k], states[k].handles[id];
    hide IsRun, SnapshotAt, Account, Order, Unmatched, Backlog, Matches;
    BacklogIsUnmatched(re, states[j], t);
    BacklogIsUnmatched(re, s, t);
    n := AccountMeans(Matches(re, id, h), t, Unmatched(states[j], t), Unmatched(s, t), events, Full(h),
                      InService(s, id, t));
  }

  /** With no matching event in the backlog at registration, everything returned was published
      while the receive was registered, in publish order. */
  lemma FreshWhenNoBacklog(re: Regexp, steps: seq<Step>, states: seq<State>, j: nat, k: nat, id: string,
                           t: EventType, events: seq<Envelope>)
    requires IsRun(re, steps, states) && j < k < |steps| && steps[j] == OnHandle(id, List)
    requires SnapshotAt(steps, states, k, id, events)
    requires states[k].handles[id].kind == Kind.Receive
    requires forall m :: 0 <= m < |Backlog(states[j], t)| ==>
               !Matches(re, id, states[k].handles[id])(Backlog(states[j], t)[m])
    ensures var was, now := Inbox(states[j].inbox, t), Inbox(states[k].inbox, t);
            && |was.offered| <= |now.offered|
            && Subseq(Select(OfType(t), events),
                      Select(Matches(re, id, states[k].handles[id]), now.offered[|was.offered|..]))
  {
    var n := ReceiveReturnsExactly(re, steps, states, j, k, id, t, events);
    hide IsRun, Select, SnapshotAt, Matches, Backlog, Unmatched, Done;
    SelectsFromLater(Matches(re, id, states[k].handles[id]), Select(OfType(t), events), Served(states, j, k, id, t), n,
                     Inbox(states[k].inbox, t).offered[|Inbox(states[j].inbox, t).offered|..]);
  }

  lemma SelectsFromLater(p: Envelope -> bool, mine: seq<Envelope>, served: seq<Envelope>, n: nat, later: seq<Envelope>)
    requires mine <= Select(p, served) && n <= |served| && Subseq(served[n..], later)
    requires forall m :: 0 <= m < n ==> !p(served[..n][m])
    ensures Subseq(mine, Select(p, later))
  {
    NothingMatches(p, served[..n]);
    SelectConcat(p, served[..n], served[n..]);
    assert served == served[..n] + served[n..];
    SelectSubseq(p, served[n..], later);
    hide Select;
    assert [] + Select(p, served[n..]) == Select(p, served[n..]);
    assert mine == Select(p, served)[..|mine|];
    SubseqPrefix(Select(p, served), |mine|, Select(p, later));
  }

  lemma {:induction false} NothingMatches(p: Envelope -> bool, s: seq<Envelope>)
    requires forall m :: 0 <= m < |s| ==> !p(s[m])
    ensures Select(p, s) == []
    decreases |s|
  {
    if s != [] {
      NothingMatches(p, s[..|s| - 1]);
    }
  }

  /** Conversely, a matching event of the backlog whose service is over by the snapshot is
      returned, although it was published before registration, unless the limit came first. */
  lemma BacklogIsReturned(re: Regexp, steps: seq<Step>, states: seq<State>, j: nat, k: nat, id: string,
                          t: EventType, events: seq<Envelope>, m: nat)
    requires IsRun(re, steps, states) && j < k < |steps| && steps[j] == OnHandle(id, List)
    requires SnapshotAt(steps, states, k, id, events)
    requires states[k].handles[id].kind == Kind.Receive
    requires var h := states[k].handles[id]; h.limit <= 0 || |events| < h.limit
    requires m < |Backlog(states[j], t)| && Matches(re, id, states[k].handles[id])(Backlog(states[j], t)[m])
    requires var pending := if InService(states[k], id, t).Some? then 1 else 0;
             m < |Unmatched(states[k], t).handled| - |Unmatched(states[j], t).handled| - pending
    ensures Backlog(states[j], t)[m] in events
  {
    var n := ReceiveReturnsExactly(re, steps, states, j, k, id, t, events);
    var x, served := Backlog(states[j], t)[m], Served(states, j, k, id, t);
    assert m < n;
    hide IsRun, Select, SnapshotAt, Matches, Backlog, Unmatched, Done;
    assert served[m] == served[..n][m] == x;
    SelectMember(Matches(re, id, states[k].handles[id]), served, x);
    SelectMember(OfType(t), events, x);
  }

  // # Asks

  /** The event that resolves an ask is the first one of its type, of those matched since
      registration, that the ask accepts; and it was in the backlog of registration or was
      published since. */
  lemma AskGetsFirstMatch(re: Regexp, steps: seq<Step>, states: seq<State>, j: nat, k: nat, id: string)
    returns (n: nat)
    requires IsRun(re, steps, states) && j < k < |states| && steps[j] == OnHandle(id, List)
    requires var h := states[k].handles; id in h && !h[id].once.Fresh? && h[id].once.outcome.Matched? && h[id].kind.Ask?
    ensures var h, env := states[k].handles[id], states[k].handles[id].once.outcome.env;
            var t := env.eventType;
            var was, now := Unmatched(states[j], t), Unmatched(states[k], t);
            && |was.handled| <= |now.handled| && |was.offered| <= |now.offered|
            && var seen := now.handled[|was.handled|..];
               && n < |seen| && seen[n] == env && Matches(re, id, h)(env)
               && (forall i :: 0 <= i < n ==> !Matches(re, id, h)(seen[i]))
               && (if n < |Backlog(states[j], t)| then Backlog(states[j], t)[n] == env
                   else env in now.offered[|was.offered|..])
  {
    OriginIsRegistration(re, steps, states, j, k, id);
    OrderAlways(re, steps, states, j);
    OrderAlways(re, steps, states, k);
    var s, h, env := states[k], states[k].handles[id], states[k].handles[id].once.outcome.env;
    var t := env.eventType;
    assert Tracked(s, id) && OrderOk(re, s, id, t);
    BacklogIsUnmatched(re, states[j], t);
    hide IsRun, Order, Unmatched, Backlog, Matches;
    n := FirstResolves(Matches(re, id, h), Unmatched(states[j], t), Unmatched(s, t), false, env, InService(s, id, t));
  }

  lemma FirstResolves(accepts: Envelope -> bool, was: Channel, c: Channel, open: bool, env: Envelope,
                      pending: Option<Envelope>)
    returns (n: nat)
    requires AskAccount(accepts, was, c, open, Some(env), pending)
    ensures |was.handled| <= |c.handled| && |was.offered| <= |c.offered|
    ensures var seen := c.handled[|was.handled|..];
            && n < |seen| && seen[n] == env && accepts(env) && (forall i :: 0 <= i < n ==> !accepts(seen[i]))
            && (if n < |was.buffer| then was.buffer[n] == env else env in c.offered[|was.offered|..])
  {
    var seen := c.handled[|was.handled|..];
    assert Done(was, c, false) == seen;
    n := FirstSelected(accepts, seen);
    hide Select;
    var flow := Flow(was, c);
    assert flow[n] == env;
    if n < |was.buffer| {
      assert was.buffer[n] == flow[..|was.buffer|][n];
    } else {
      assert flow[|was.buffer|..][n - |was.buffer|] == env;
      SubseqMember(flow[|was.buffer|..], c.offered[|was.offered|..], env);
    }
  }

  lemma {:induction false} FirstSelected<T>(p: T -> bool, s: seq<T>) returns (n: nat)
    requires Select(p, s) != []
    ensures n < |s| && s[n] == Select(p, s)[0] && p(s[n]) && forall i :: 0 <= i < n ==> !p(s[i])
    decreases |s|
  {
    var init, x := s[..|s| - 1], s[|s| - 1];
    if Select(p, init) != [] {
      n := FirstSelected(p, init);
    } else {
      n := |s| - 1;
      forall i | 0 <= i < n ensures !p(s[i]) {
        SelectMember(p, init, s[i]);
        assert init[i] == s[i];
      }
    }
  }

  /** As long as an ask is open, no event it accepts has been matched since its registration
      and served: it misses nothing. */
  lemma OpenAskMissedNothing(re: Regexp, steps: seq<Step>, states: seq<State>, j: nat, k: nat, id: string,
                             t: EventType, m: nat)
    requires IsRun(re, steps, states) && j < k < |states| && steps[j] == OnHandle(id, List)
    requires id in states[k].handles && states[k].handles[id].once.Fresh? && states[k].handles[id].kind.Ask?
    ensures |Unmatched(states[j], t).handled| <= |Unmatched(states[k], t).handled|
    ensures m < |Served(states, j, k, id, t)| ==>
              !Matches(re, id, states[k].handles[id])(Served(states, j, k, id, t)[m])
  {
    OriginIsRegistration(re, steps, states, j, k, id);
    OrderAlways(re, steps, states, k);
    var s, h := states[k], states[k].handles[id];
    assert Tracked(s, id) && OrderOk(re, s, id, t);
    hide IsRun, Order, Unmatched, Matches;
    var was, c := Unmatched(states[j], t), Unmatched(s, t);
    assert |was.handled| <= |c.handled|;
    hide Done, Select, Since;
    if m < |Served(states, j, k, id, t)| {
      SelectMember(Matches(re, id, h), Served(states, j, k, id, t), Served(states, j, k, id, t)[m]);
    }
  }
}
