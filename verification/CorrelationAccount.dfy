/** The account of one handle and one event type: what the handle has taken, against what
    the type's channel has carried since the handle was listed. */
module CorrelationAccount {
  import opened Wrappers
  import opened Events
  import opened Subsequence
  import opened Bus

  function OfType(t: EventType): Envelope -> bool {
    (env: Envelope) => env.eventType == t
  }

  /** The events a channel handled since `was`, without a last one that is still pending. */
  function Done(was: Channel, c: Channel, pending: bool): (seen: seq<Envelope>)
    requires |was.handled| <= |c.handled|
    ensures pending && |was.handled| < |c.handled| ==> |seen| == |c.handled| - |was.handled| - 1
    ensures !pending ==> |seen| == |c.handled| - |was.handled|
  {
    var seen := c.handled[|was.handled|..];
    if pending && seen != [] then seen[..|seen| - 1] else seen
  }

  /** The channel has moved on from `was`, and a pending event is the last one handled. */
  ghost predicate Carried(was: Channel, c: Channel, pending: Option<Envelope>) {
    && Since(was, c)
    && (pending.Some? ==> |was.handled| < |c.handled| && c.handled[|c.handled| - 1] == pending.value)
  }

  lemma CarriedStart(c: Channel)
    ensures Carried(c, c, None) && Done(c, c, false) == []
  {
    SinceStart(c);
  }

  lemma CarriedOffer(was: Channel, c: Channel, c': Channel, pending: Option<Envelope>, env: Envelope)
    requires Carried(was, c, pending) && IsOffer(c, c', env)
    ensures Carried(was, c', pending) && Done(was, c', pending.Some?) == Done(was, c, pending.Some?)
  {
    SinceOffer(was, c, c', env);
    hide Since;
  }

  lemma CarriedTake(was: Channel, c: Channel, wanted: bool)
    requires Carried(was, c, None) && c.buffer != []
    ensures var pending := if wanted then Some(c.buffer[0]) else None;
            && Carried(was, Take(c), pending)
            && Done(was, Take(c), wanted) == Done(was, c, false) + (if wanted then [] else [c.buffer[0]])
  {
    SinceTake(was, c);
    hide Since;
    var seen := c.handled[|was.handled|..];
    assert (seen + [c.buffer[0]])[..|seen|] == seen;
  }

  lemma CarriedServed(was: Channel, c: Channel, env: Envelope)
    requires Carried(was, c, Some(env))
    ensures Carried(was, c, None) && Done(was, c, false) == Done(was, c, true) + [env]
  {
    assert c.handled[|was.handled|..] == Done(was, c, true) + [env];
  }

  // # A receive

  /** What was collected of type t is an initial part of the matching events the channel is
      done with since `was`, and all of it while the receive is served and not full. */
  ghost predicate Account(matches: Envelope -> bool, t: EventType, was: Channel, c: Channel, collected: seq<Envelope>,
                          full: bool, listed: bool, pending: Option<Envelope>) {
    && Carried(was, c, pending)
    && var mine, due := Select(OfType(t), collected), Select(matches, Done(was, c, pending.Some?));
       && mine <= due
       && ((listed || pending.Some?) && !full ==> mine == due)
  }

  lemma AccountStart(matches: Envelope -> bool, t: EventType, c: Channel, full: bool)
    ensures Account(matches, t, c, c, [], full, true, None)
  {
    CarriedStart(c);
    hide Carried, Done;
  }

  lemma AccountOffer(matches: Envelope -> bool, t: EventType, was: Channel, c: Channel, c': Channel,
                     collected: seq<Envelope>, full: bool, listed: bool, pending: Option<Envelope>, env: Envelope)
    requires Account(matches, t, was, c, collected, full, listed, pending) && IsOffer(c, c', env)
    ensures Account(matches, t, was, c', collected, full, listed, pending)
  {
    assert |was.handled| <= |c.handled|;
    CarriedOffer(was, c, c', pending, env);
    hide Select, Carried, Done;
  }

  /** The dispatcher takes an event, which it will give to every listed, matching receive. */
  lemma AccountTake(matches: Envelope -> bool, t: EventType, was: Channel, c: Channel, collected: seq<Envelope>,
                    full: bool, listed: bool)
    requires Account(matches, t, was, c, collected, full, listed, None) && c.buffer != []
    ensures Account(matches, t, was, Take(c), collected, full, listed,
                    if listed && matches(c.buffer[0]) then Some(c.buffer[0]) else None)
  {
    assert |was.handled| <= |c.handled|;
    var done := Done(was, c, false);
    CarriedTake(was, c, listed && matches(c.buffer[0]));
    SelectSnoc(matches, done, c.buffer[0]);
    hide Select, Carried, Done, Take;
    assert done + [] == done;
    assert Select(matches, done) + [] == Select(matches, done);
  }

  /** The dispatcher gives its event to the receive. */
  lemma AccountCollect(matches: Envelope -> bool, t: EventType, was: Channel, c: Channel, collected: seq<Envelope>,
                       full: bool, full': bool, listed: bool, env: Envelope)
    requires Account(matches, t, was, c, collected, full, listed, Some(env))
    requires matches(env) && env.eventType == t && (full ==> full')
    ensures Account(matches, t, was, c, if full then collected else collected + [env], full', listed, None)
  {
    assert |was.handled| <= |c.handled|;
    CarriedServed(was, c, env);
    SelectSnoc(matches, Done(was, c, true), env);
    SelectSnoc(OfType(t), collected, env);
    hide Select, Carried, Done;
  }

  /** The dispatcher of another type gives its event to the receive. */
  lemma AccountOther(matches: Envelope -> bool, t: EventType, was: Channel, c: Channel, collected: seq<Envelope>,
                     full: bool, full': bool, listed: bool, pending: Option<Envelope>, env: Envelope)
    requires Account(matches, t, was, c, collected, full, listed, pending)
    requires env.eventType != t && (full ==> full')
    ensures Account(matches, t, was, c, if full then collected else collected + [env], full', listed, pending)
  {
    assert |was.handled| <= |c.handled|;
    SelectOther(t, collected, env);
    hide Select, Carried, Done;
  }

  lemma SelectOther(t: EventType, collected: seq<Envelope>, env: Envelope)
    requires env.eventType != t
    ensures Select(OfType(t), collected + [env]) == Select(OfType(t), collected)
  {
    SelectSnoc(OfType(t), collected, env);
    hide Select;
  }

  /** What the account of a listed receive says, in terms of the channel alone. */
  lemma AccountMeans(matches: Envelope -> bool, t: EventType, was: Channel, c: Channel, collected: seq<Envelope>,
                     full: bool, pending: Option<Envelope>)
    returns (n: nat)
    requires Account(matches, t, was, c, collected, full, true, pending)
    ensures |was.offered| <= |c.offered| && |was.handled| <= |c.handled|
    ensures var served := Done(was, c, pending.Some?);
            && n <= |served| && n <= |was.buffer| && (n < |was.buffer| ==> n == |served|)
            && Select(OfType(t), collected) <= Select(matches, served)
            && (!full ==> Select(OfType(t), collected) == Select(matches, served))
            && served[..n] == was.buffer[..n]
            && Subseq(served[n..], c.offered[|was.offered|..])
  {
    n := CarriedMeans(was, c, pending);
    hide Select, Carried, Done;
  }

  /** The events done with are the backlog of `was`, then a selection of later offers. */
  lemma CarriedMeans(was: Channel, c: Channel, pending: Option<Envelope>) returns (n: nat)
    requires Carried(was, c, pending)
    ensures |was.offered| <= |c.offered| && |was.handled| <= |c.handled|
    ensures var served := Done(was, c, pending.Some?);
            && n <= |served| && n <= |was.buffer| && (n < |was.buffer| ==> n == |served|)
            && served[..n] == was.buffer[..n]
            && Subseq(served[n..], c.offered[|was.offered|..])
  {
    var served := Done(was, c, pending.Some?);
    n := if |was.buffer| <= |served| then |was.buffer| else |served|;
    var flow := Flow(was, c);
    assert served <= flow;
    assert served[..n] == flow[..n] == was.buffer[..n];
    if n == |was.buffer| {
      assert served[n..] == flow[n..][..|served| - n];
      SubseqPrefix(flow[n..], |served| - n, c.offered[|was.offered|..]);
    } else {
      assert served[n..] == [];
      EmptySubseq(c.offered[|was.offered|..]);
    }
  }

  // # An ask

  /** While the ask is open, none of the events done with since `was` was one it accepts; and
      the event that resolved it is the first such. */
  ghost predicate AskAccount(accepts: Envelope -> bool, was: Channel, c: Channel, open: bool,
                             resolved: Option<Envelope>, pending: Option<Envelope>) {
    && Carried(was, c, pending)
    && (open ==> Select(accepts, Done(was, c, pending.Some?)) == [])
    && (resolved.Some? ==>
          var seen := Select(accepts, Done(was, c, false));
          seen != [] && seen[0] == resolved.value)
  }

  lemma AskStart(accepts: Envelope -> bool, c: Channel, open: bool)
    ensures AskAccount(accepts, c, c, open, None, None)
  {
    CarriedStart(c);
    hide Carried, Done;
  }

  lemma AskOffer(accepts: Envelope -> bool, was: Channel, c: Channel, c': Channel, open: bool,
                 resolved: Option<Envelope>, pending: Option<Envelope>, env: Envelope)
    requires AskAccount(accepts, was, c, open, resolved, pending) && IsOffer(c, c', env)
    ensures AskAccount(accepts, was, c', open, resolved, pending)
  {
    assert |was.handled| <= |c.handled|;
    CarriedOffer(was, c, c', pending, env);
    assert Done(was, c', false) == Done(was, c, false);
    hide Select, Carried, Done;
  }

  lemma AskTake(accepts: Envelope -> bool, was: Channel, c: Channel, open: bool, resolved: Option<Envelope>)
    requires AskAccount(accepts, was, c, open, resolved, None) && c.buffer != []
    ensures var x := c.buffer[0];
            && AskAccount(accepts, was, Take(c), open, resolved, if accepts(x) then Some(x) else None)
            && (!open ==> AskAccount(accepts, was, Take(c), open, resolved, None))
  {
    assert |was.handled| <= |c.handled|;
    var done, x := Done(was, c, false), c.buffer[0];
    CarriedTake(was, c, accepts(x));
    CarriedTake(was, c, false);
    SelectSnoc(accepts, done, x);
    hide Select, Carried, Done, Take;
    assert done + [] == done;
  }

  /** The ask is resolved by the event the dispatcher holds for it. */
  lemma AskWon(accepts: Envelope -> bool, was: Channel, c: Channel, env: Envelope)
    requires AskAccount(accepts, was, c, true, None, Some(env)) && accepts(env)
    ensures AskAccount(accepts, was, c, false, Some(env), Some(env))
  {
    assert |was.handled| <= |c.handled|;
    CarriedServed(was, c, env);
    SelectSnoc(accepts, Done(was, c, true), env);
    hide Select, Carried, Done;
  }

  /** The dispatcher is done with an ask that is no longer open. */
  lemma AskServed(accepts: Envelope -> bool, was: Channel, c: Channel, resolved: Option<Envelope>, env: Envelope)
    requires AskAccount(accepts, was, c, false, resolved, Some(env))
    ensures AskAccount(accepts, was, c, false, resolved, None)
  {
    hide Select, Since;
  }
}
