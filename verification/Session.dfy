/** One delivery's conversation with the systems around the worker. The systems may answer anything that
    fits; the session only lets the worker make the call the protocol is at. */
module Session {
  import opened Protocol

  class Conversation {
    const config: Config
    const job: Job
    const answers: (nat, Op) -> Reply
    var calls: nat
    ghost var trace: seq<Event>
    ghost var pc: Pc

    constructor (config: Config, job: Job, answers: (nat, Op) -> Reply)
      requires forall n, op :: Fits(op, answers(n, op))
      ensures Valid() && this.config == config && this.job == job && this.answers == answers
      ensures trace == [] && pc == StartPc(job)
    {
      this.config, this.job, this.answers := config, job, answers;
      calls, trace, pc := 0, [], StartPc(job);
    }

    /** What was said so far follows the protocol up to `pc`. */
    ghost predicate Valid()
      reads this
    {
      && Path(config, job, StartPc(job), trace, pc)
      && forall n, op :: Fits(op, answers(n, op))
    }

    /** The next call must be the one the protocol is waiting on. */
    method Call(op: Op) returns (r: Reply)
      requires Valid() && !pc.Done? && op == OpOf(config, job, pc)
      modifies this
      ensures Valid() && Fits(op, r) && pc == NextPc(config, job, old(pc), r)
      ensures trace == old(trace) + [Event(op, r)]
    {
      r := answers(calls, op);
      calls := calls + 1;
      PathExtends(config, job, StartPc(job), trace, pc, Event(op, r));
      trace, pc := trace + [Event(op, r)], NextPc(config, job, pc, r);
    }
  }
}
