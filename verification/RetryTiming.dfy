/** When retries are due, over whole runs: every stored envelope is due in the backoff window of its attempt, counted
    from the clock reading of the delivery that wrote it. */
module RetryTiming {
  import opened Types
  import opened Protocol
  import opened Machine
  import opened Conversations
  import Backoff
  import ReadyEvent

  /** The clock reading and jitter a delivery starts with. */
  predicate Reads(a: Action, clock: int, jitter: real) {
    || (a.Deliver? && a.clock == clock && a.jitter == jitter)
    || (a.Reclaim? && a.clock == clock && a.jitter == jitter)
  }

  ghost predicate ReadIn(actions: seq<Action>, clock: int, jitter: real) {
    exists a :: a in actions && Reads(a, clock, jitter)
  }

  ghost predicate DelayedFrom(c: Config, actions: seq<Action>, env: Envelope) {
    exists clock, jitter :: ReadIn(actions, clock, jitter)
                            && env.nextAttemptAt == (clock + Backoff.Delay(c.backoff, env.attempt, jitter)) / 1_000_000
  }

  /** Every handler and every stored envelope goes back to a delivery among the actions so far. */
  ghost predicate Timed(c: Config, actions: seq<Action>, s: Sys) {
    && (forall h :: h in s.handlers ==> ReadIn(actions, s.handlers[h].job.clock, s.handlers[h].job.jitter))
    && (forall id :: id in s.w.hash ==> DelayedFrom(c, actions, s.w.hash[id]))
  }

  lemma MoreActions(c: Config, actions: seq<Action>, more: seq<Action>, s: Sys)
    requires Timed(c, actions, s) && actions <= more
    ensures Timed(c, more, s)
  {
    forall clock, jitter | ReadIn(actions, clock, jitter)
      ensures ReadIn(more, clock, jitter)
    {
      var a :| a in actions && Reads(a, clock, jitter);
      assert a in more;
    }
    forall id | id in s.w.hash
      ensures DelayedFrom(c, more, s.w.hash[id])
    {
      var env := s.w.hash[id];
      var clock, jitter :| ReadIn(actions, clock, jitter)
                           && env.nextAttemptAt == (clock + Backoff.Delay(c.backoff, env.attempt, jitter)) / 1_000_000;
      assert ReadIn(more, clock, jitter);
    }
  }

  lemma WrittenIsDelayed(c: Config, actions: seq<Action>, job: Job, pc: Pc)
    requires ReadIn(actions, job.clock, job.jitter) && OpOf(c, job, pc).ScheduleRetry?
    ensures DelayedFrom(c, actions, OpOf(c, job, pc).envelope)
  {
    EnvelopeIsTheRetry(c, job, pc.code);
  }

  lemma HandlerStepKeepsTimed(c: Config, actions: seq<Action>, s: Sys, h: nat, r: Reply)
    requires Timed(c, actions, s) && Enabled(c, s, HandlerStep(h, r))
    ensures Timed(c, actions, After(c, s, HandlerStep(h, r)))
  {
    var job, pc := s.handlers[h].job, s.handlers[h].pc;
    ReadyEvent.StepFrame(c, s, h, r);
    ReadyEvent.HashAfterCall(s.w, OpOf(c, job, pc), r);
    if OpOf(c, job, pc).ScheduleRetry? {
      WrittenIsDelayed(c, actions, job, pc);
    }
  }

  lemma OtherStepKeepsTimed(c: Config, actions: seq<Action>, s: Sys, a: Action)
    requires Timed(c, actions, s) && Enabled(c, s, a) && !a.HandlerStep? && a in actions
    ensures Timed(c, actions, After(c, s, a))
  {
    if a.Deliver? || a.Reclaim? {
      assert ReadIn(actions, a.clock, a.jitter);
    }
  }

  lemma {:induction false} RunKeepsTimed(c: Config, before: seq<Action>, s: Sys, actions: seq<Action>)
    requires Timed(c, before, s) && Run(c, s, actions)
    ensures Timed(c, before + actions, End(c, s, actions))
    decreases |actions|
  {
    if actions == [] {
      assert before + actions == before;
    } else {
      var a, longer := actions[0], before + [actions[0]];
      MoreActions(c, before, longer, s);
      if a.HandlerStep? {
        HandlerStepKeepsTimed(c, longer, s, a.h, a.reply);
      } else {
        OtherStepKeepsTimed(c, longer, s, a);
      }
      RunKeepsTimed(c, longer, After(c, s, a), actions[1..]);
      assert before + actions == longer + actions[1..];
    }
  }

  /** Every stored retry waits for its backoff, whatever the interleaving: it is due no earlier than half its attempt's
      intended delay, and no later than the whole, after the clock reading of some delivery of the run. */
  lemma StoredRetriesAreDelayed(c: Config, s: Sys, actions: seq<Action>, id: string)
    requires Initial(s) && Run(c, s, actions) && id in End(c, s, actions).w.hash
    requires forall a :: a in actions && (a.Deliver? || a.Reclaim?) ==> 0.0 <= a.jitter < 1.0
    requires var env := End(c, s, actions).w.hash[id]; env.attempt >= 1 && Exact(c.backoff, env.attempt)
    ensures exists a :: a in actions && (a.Deliver? || a.Reclaim?) &&
              DueInWindow(c.backoff, a.clock, End(c, s, actions).w.hash[id])
  {
    RunKeepsTimed(c, [], s, actions);
    assert [] + actions == actions;
    var env := End(c, s, actions).w.hash[id];
    var clock, jitter :| ReadIn(actions, clock, jitter)
                         && env.nextAttemptAt == (clock + Backoff.Delay(c.backoff, env.attempt, jitter)) / 1_000_000;
    var a :| a in actions && Reads(a, clock, jitter);
    DelayedRetryIsInWindow(c.backoff, clock, jitter, env);
    assert DueInWindow(c.backoff, a.clock, env);
  }
}
