/** Worker status writes over whole runs: which moves happen, and that a terminal one is the last. */
module StatusSafety {
  import opened Deployment
  import opened Protocol
  import opened Machine
  import opened NoLoss

  /** EXPORT_QUEUED to EXPORTING to ARTIFACT_READY, or either of the first two to EXPORT_FAILED. */
  predicate AllowedMove(m: Move) {
    || (m.from.ExportQueued? && m.to.Exporting?)
    || (m.from.Exporting? && m.to.ArtifactReady?)
    || (Actionable(m.from) && m.to.ExportFailed?)
  }

  predicate Finishes(m: Move) {
    m.to.ArtifactReady? || m.to.ExportFailed?
  }

  ghost predicate MovesOk(moves: seq<Move>) {
    && (forall i :: 0 <= i < |moves| ==> AllowedMove(moves[i]))
    && (forall i, j :: 0 <= i < j < |moves| && moves[i].dep == moves[j].dep ==> !Finishes(moves[i]))
  }

  ghost predicate StatusInv(s: Sys) {
    && MovesOk(s.hist.moves)
    && forall i :: 0 <= i < |s.hist.moves| && Finishes(s.hist.moves[i]) ==> Terminal(s.w, s.hist.moves[i].dep)
  }

  lemma CallMovesAllowed(c: Config, job: Job, pc: Pc)
    requires WellFormed(job, pc)
    ensures var op := OpOf(c, job, pc); op.Cas? ==> AllowedMove(Move(op.dep, op.from, op.to))
  {
  }

  /** A worker's write finds the record actionable, so no finishing move came before it. */
  lemma MoveExtends(s: Sys, t: Sys, op: Op, r: Reply)
    requires StatusInv(s) && Possible(s.w, op, r) && t.w == Perform(s.w, op, r)
    requires op.Cas? ==> AllowedMove(Move(op.dep, op.from, op.to))
    requires t.hist.moves == if Effective(r) && op.Cas? then s.hist.moves + [Move(op.dep, op.from, op.to)]
              else s.hist.moves
    ensures StatusInv(t)
  {
    if Effective(r) && op.Cas? {
      assert !Terminal(s.w, op.dep);
      forall i | 0 <= i < |t.hist.moves| && Finishes(t.hist.moves[i])
        ensures Terminal(t.w, t.hist.moves[i].dep)
      {
        if i < |s.hist.moves| {
          assert t.hist.moves[i] == s.hist.moves[i];
        }
      }
    }
  }

  lemma StepKeepsStatusInv(c: Config, s: Sys, a: Action)
    requires Inv(s) && StatusInv(s) && Enabled(c, s, a)
    ensures StatusInv(After(c, s, a))
  {
    if a.HandlerStep? {
      var h := s.handlers[a.h];
      assert HandlerOk(s, h);
      CallMovesAllowed(c, h.job, h.pc);
      MoveExtends(s, After(c, s, a), OpOf(c, h.job, h.pc), a.reply);
    }
  }

  lemma {:induction false} RunKeepsStatusInv(c: Config, s: Sys, actions: seq<Action>)
    requires Inv(s) && StatusInv(s) && Run(c, s, actions)
    ensures StatusInv(End(c, s, actions))
    decreases |actions|
  {
    if actions != [] {
      StepKeepsInv(c, s, actions[0]);
      StepKeepsStatusInv(c, s, actions[0]);
      RunKeepsStatusInv(c, After(c, s, actions[0]), actions[1..]);
    }
  }

  /** In every run every worker status write is one of the allowed moves, starts from an actionable status,
      and is the deployment's last one if it finishes it: no run sets both ARTIFACT_READY and EXPORT_FAILED. */
  lemma WorkerMovesAreSafe(c: Config, s: Sys, actions: seq<Action>)
    requires Initial(s) && Run(c, s, actions)
    ensures var moves := End(c, s, actions).hist.moves;
            && (forall i :: 0 <= i < |moves| ==> AllowedMove(moves[i]) && !NonActionable(moves[i].from))
            && (forall i, j :: 0 <= i < j < |moves| && moves[i].dep == moves[j].dep ==> !Finishes(moves[i]))
            && (forall i, j :: 0 <= i < |moves| && 0 <= j < |moves| && moves[i].dep == moves[j].dep ==>
                  !(moves[i].to.ArtifactReady? && moves[j].to.ExportFailed?))
  {
    assert Inv(s) && StatusInv(s);
    RunKeepsStatusInv(c, s, actions);
  }
}
