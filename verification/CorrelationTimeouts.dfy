/** Timeouts never come early. */
module CorrelationTimeouts {
  import opened Wrappers
  import opened Filter
  import opened Correlation
  import opened CorrelationInvariant
  import opened CorrelationTheorems

  /** An ask that timed out, or a receive whose window ran out. */
  predicate RanOut(o: Outcome) {
    o == TimedOut || o == Window(Expired)
  }

  predicate HandlePunctual(h: Handle, clock: int) {
    && (h.timer.Firing? ==> h.deadline <= clock)
    && (!h.once.Fresh? && RanOut(h.once.outcome) ==> h.deadline <= clock)
  }

  ghost predicate SweepPunctual(s: State) {
    s.sweep.Sweeping? ==>
      && s.sweep.now <= s.clock
      && forall id :: id in s.sweep.expired ==> id in s.handles && s.handles[id].deadline < s.sweep.now
  }

  ghost predicate Punctual(s: State) {
    SweepPunctual(s) && forall id :: id in s.handles ==> HandlePunctual(s.handles[id], s.clock)
  }

  /** The handle's own goroutines. */
  lemma PunctualAction(s: State, id: string, act: HandleAction)
    requires HandleEnabled(s, id, act) && HandlePunctual(s.handles[id], s.clock)
    ensures var h, h' := s.handles[id], ApplyHandle(s, id, act).handles[id];
            HandlePunctual(h', s.clock) && h'.deadline == h.deadline
  {
    hide AllUnmatched;
  }

  lemma ClockForward(re: Regexp, s: State, step: Step)
    requires Enabled(re, s, step)
    ensures s.clock <= Apply(re, s, step).clock
  {
    hide ExactlyTheMatches, HandleEnabled, ApplyHandle;
    if step.OnHandle? {
      HandleFrame(s, step.id, step.act);
    }
  }

  lemma InsertedIsIdle(re: Regexp, s: State, step: Step, id: string)
    requires Enabled(re, s, step) && id !in s.handles && id in Apply(re, s, step).handles
    ensures Apply(re, s, step).handles[id].timer.NotStarted? && Apply(re, s, step).handles[id].once.Fresh?
  {
    assert step.OnHandle? ==> step.id in s.handles;
    hide ExactlyTheMatches, HandleEnabled, ApplyHandle;
    if step.OnHandle? {
      HandleFrame(s, step.id, step.act);
    }
  }

  lemma PunctualHandle(re: Regexp, s: State, step: Step, id: string)
    requires Punctual(s) && Enabled(re, s, step) && id in Apply(re, s, step).handles
    ensures HandlePunctual(Apply(re, s, step).handles[id], Apply(re, s, step).clock)
    ensures id in s.handles ==> Apply(re, s, step).handles[id].deadline == s.handles[id].deadline
  {
    ClockForward(re, s, step);
    if id !in s.handles {
      InsertedIsIdle(re, s, step, id);
      hide Apply, Enabled;
    } else if Touched(s, step) != Some(id) {
      UntouchedSame(re, s, step, id);
      hide Apply, Enabled;
    } else if step.OnHandle? {
      PunctualAction(s, id, step.act);
      HandleFrame(s, id, step.act);
      hide HandleEnabled, ApplyHandle;
    } else {
      assert HandlePunctual(s.handles[id], s.clock);
      PunctualTouched(re, s, step, id);
    }
  }

  lemma PunctualTouched(re: Regexp, s: State, step: Step, id: string)
    requires Punctual(s) && Enabled(re, s, step) && Touched(s, step) == Some(id) && !step.OnHandle? && id in s.handles
    ensures id in Apply(re, s, step).handles && Apply(re, s, step).handles[id].deadline == s.handles[id].deadline
    ensures HandlePunctual(Apply(re, s, step).handles[id], s.clock)
  {
    TouchedChange(re, s, step, id);
    hide Apply, Enabled;
  }

  lemma PunctualSweep(re: Regexp, s: State, step: Step)
    requires Punctual(s) && Enabled(re, s, step)
    ensures SweepPunctual(Apply(re, s, step))
  {
    var s' := Apply(re, s, step);
    forall id | id in s.handles ensures id in s'.handles && s'.handles[id].deadline == s.handles[id].deadline {
      HandleStays(re, s, step, id);
      PunctualHandle(re, s, step, id);
    }
    if s'.sweep.Sweeping? {
      SweepMoves(re, s, step);
    }
    ClockForward(re, s, step);
    hide Apply, Enabled;
  }

  lemma HandleStays(re: Regexp, s: State, step: Step, id: string)
    requires Enabled(re, s, step) && id in s.handles
    ensures id in Apply(re, s, step).handles
  {
    hide ExactlyTheMatches, HandleEnabled, ApplyHandle;
    if step.OnHandle? {
      HandleFrame(s, step.id, step.act);
    }
  }

  /** A sweep starts with a past clock reading and the handles late by it, and then only gets
      through its list. */
  lemma SweepMoves(re: Regexp, s: State, step: Step)
    requires Enabled(re, s, step) && Apply(re, s, step).sweep.Sweeping?
    ensures var sweep := Apply(re, s, step).sweep;
            if s.sweep.Sweeping? then
              sweep.now == s.sweep.now && forall id :: id in sweep.expired ==> id in s.sweep.expired
            else
              sweep.now <= s.clock
              && forall id :: id in sweep.expired ==> id in s.handles && s.handles[id].deadline < sweep.now
  {
    hide ExactlyTheMatches, HandleEnabled, ApplyHandle;
    if step.OnHandle? {
      HandleFrame(s, step.id, step.act);
    }
  }

  lemma {:induction false} PunctualAlways(re: Regexp, steps: seq<Step>, states: seq<State>, i: nat)
    requires IsRun(re, steps, states) && i < |states|
    ensures Punctual(states[i])
  {
    hide Apply, Enabled, HandlePunctual;
    if i > 0 {
      PunctualAlways(re, steps, states, i - 1);
      hide SweepPunctual;
      PunctualSweep(re, states[i - 1], steps[i - 1]);
      forall id | id in states[i].handles ensures HandlePunctual(states[i].handles[id], states[i].clock) {
        PunctualHandle(re, states[i - 1], steps[i - 1], id);
      }
    }
  }

  /** In every run, an ask has timed out, or a receive's window has run out, only if the clock
      has reached its deadline. */
  lemma TimeoutsAreNotEarly(re: Regexp, steps: seq<Step>, states: seq<State>, i: nat, id: string)
    requires IsRun(re, steps, states) && i < |states| && id in states[i].handles
    ensures var s, h := states[i], states[i].handles[id];
            !h.once.Fresh? && (h.once.outcome == TimedOut || h.once.outcome == Window(Expired)) ==>
              s.clock >= h.deadline
  {
    PunctualAlways(re, steps, states, i);
    assert HandlePunctual(states[i].handles[id], states[i].clock);
  }
}
