/**
 `Stop` and `Kill` after the process has exited, and the state that `Wait` leaves behind.
 */
module PoolWait {
  import opened PoolModel
  import opened PoolFrames

  // ---------------------------------------------------------------- late calls

  /** The process has exited, and no Stop or Kill got past its look before that. */
  predicate Untouched(s: Pool, w: WorkerId) {
    && w in s.workers && s.workers[w].exited && !s.workers[w].lock.ByStop?
    && s.workers[w].stopsPassed == 0 && s.workers[w].killsPassed == 0
  }

  lemma CallUntouched(s: Pool, s': Pool, t: CallId, p: CallAct, w: WorkerId)
    requires CallStep(s, s', t, p) && Untouched(s, w)
    ensures Untouched(s', w)
  {
    if OnWorker(p) {
      CallOnWorker(s, s', t, p);
      if w == s.calls[t].pc.w {
        OwnUntouched(s, s', t, p);
      }
    } else {
      CallOffWorker(s, s', t, p);
    }
  }

  lemma OwnUntouched(s: Pool, s': Pool, t: CallId, p: CallAct)
    requires CallStep(s, s', t, p) && OnWorker(p) && Untouched(s, s.calls[t].pc.w)
    ensures Untouched(s', s.calls[t].pc.w)
  {
  }

  lemma WatchUntouched(s: Pool, s': Pool, x: WorkerId, p: WatchAct, w: WorkerId)
    requires WatchStep(s, s', x, p) && Untouched(s, w)
    ensures Untouched(s', w)
  {
    WatchFrame(s, s', x, p);
  }

  lemma WorkerUntouched(s: Pool, s': Pool, v: WorkerId, p: WorkerAct, w: WorkerId)
    requires WorkerStep(s, s', v, p) && Untouched(s, w)
    ensures Untouched(s', w)
  {
    WorkerFrame(s, s', v, p);
  }

  lemma BuildUntouched(s: Pool, s': Pool, p: BuildAct, w: WorkerId)
    requires BuildStep(s, s', p) && Untouched(s, w)
    ensures Untouched(s', w)
  {
  }

  lemma DestroyUntouched(s: Pool, s': Pool, p: DestroyAct, w: WorkerId)
    requires DestroyStep(s, s', p) && Untouched(s, w)
    ensures Untouched(s', w)
  {
  }

  lemma StepUntouched(s: Pool, s': Pool, w: WorkerId)
    requires Next(s, s') && Untouched(s, w)
    ensures Untouched(s', w)
  {
    var step :| Does(s, s', step);
    match step
    case OfCall(t, p) => CallUntouched(s, s', t, p, w);
    case OfWatcher(x, p) => WatchUntouched(s, s', x, p, w);
    case OfWorker(v, p) => WorkerUntouched(s, s', v, p, w);
    case OfBuilder(p) => BuildUntouched(s, s', p, w);
    case OfDestroy(p) => DestroyUntouched(s, s', p, w);
  }

  /** A Stop or a Kill that comes after the process has exited does nothing. */
  lemma {:induction false} LateCallsDoNothing(r: seq<Pool>, i: nat, j: nat, w: WorkerId)
    requires Run(r) && i <= j < |r| && Untouched(r[i], w)
    ensures Untouched(r[j], w)
    decreases j
  {
    if i < j {
      LateCallsDoNothing(r, i, j - 1, w);
      RunStep(r, j - 1);
      StepUntouched(r[j - 1], r[j], w);
    }
  }

  // ---------------------------------------------------------------- what Wait leaves behind

  /** Wait takes the mutex of w and looks at the process and at the state. */
  predicate Judges(s: Pool, s': Pool, w: WorkerId, final: Value) {
    && w in s.workers && w in s'.workers
    && s.workers[w].watch.Waiting? && s.workers[w].exited && s'.workers[w].watch == Setting(final)
    && final == if s.workers[w].success || s.workers[w].value == Stopping then Stopped else Errored
  }

  ghost predicate JudgesAt(r: seq<Pool>, i: nat, w: WorkerId, final: Value) {
    i + 1 < |r| && Judges(r[i], r[i + 1], w, final)
  }

  ghost predicate HasJudged(r: seq<Pool>, j: nat, w: WorkerId, final: Value) {
    exists i: nat :: i < j && JudgesAt(r, i, w, final)
  }

  lemma JudgedMore(r: seq<Pool>, j: nat, w: WorkerId, final: Value)
    ensures HasJudged(r, j + 1, w, final) <==> HasJudged(r, j, w, final) || JudgesAt(r, j, w, final)
  {
  }

  lemma WatchJudges(s: Pool, s': Pool, x: WorkerId, p: WatchAct, w: WorkerId)
    requires WatchStep(s, s', x, p) && w in s'.workers && s'.workers[w].watch.Setting?
    ensures w in s.workers
    ensures s.workers[w].watch == s'.workers[w].watch || Judges(s, s', w, s'.workers[w].watch.final)
  {
    WatchFrame(s, s', x, p);
  }

  lemma StepJudges(s: Pool, s': Pool, w: WorkerId)
    requires Next(s, s') && w in s'.workers && s'.workers[w].watch.Setting?
    ensures w in s.workers
    ensures s.workers[w].watch == s'.workers[w].watch || Judges(s, s', w, s'.workers[w].watch.final)
  {
    var step :| Does(s, s', step);
    match step
    case OfWatcher(x, p) => WatchJudges(s, s', x, p, w);
    case OfBuilder(p) =>
    case _ => QuietFrame(s, s', step);
  }

  lemma {:induction false} AlwaysJudged(r: seq<Pool>, j: nat, w: WorkerId)
    requires Run(r) && j < |r| && w in r[j].workers && r[j].workers[w].watch.Setting?
    ensures HasJudged(r, j, w, r[j].workers[w].watch.final)
  {
    if j > 0 {
      RunStep(r, j - 1);
      StepJudges(r[j - 1], r[j], w);
      JudgedMore(r, j - 1, w, r[j].workers[w].watch.final);
      if !JudgesAt(r, j - 1, w, r[j].workers[w].watch.final) {
        AlwaysJudged(r, j - 1, w);
      }
    }
  }

  /** When Wait returns, the worker is Stopped if its process ended well or it was being stopped when Wait
      looked, and Errored otherwise. */
  lemma WaitDecides(r: seq<Pool>, j: nat, w: WorkerId)
    requires Run(r) && j + 1 < |r| && w in r[j].workers && w in r[j + 1].workers
    requires r[j].workers[w].watch.Setting? && r[j + 1].workers[w].watch.Waited?
    ensures HasJudged(r, j, w, r[j + 1].workers[w].value)
  {
    AlwaysJudged(r, j, w);
    RunStep(r, j);
    WaitStores(r[j], r[j + 1], w);
  }

  lemma WaitStores(s: Pool, s': Pool, w: WorkerId)
    requires Next(s, s') && w in s.workers && w in s'.workers
    requires s.workers[w].watch.Setting? && s'.workers[w].watch.Waited?
    ensures s'.workers[w].value == s.workers[w].watch.final
  {
    var step :| Does(s, s', step);
    match step
    case OfWatcher(x, p) => WatchWaitStores(s, s', x, p, w);
    case OfBuilder(p) =>
    case _ => QuietFrame(s, s', step);
  }

  lemma WatchWaitStores(s: Pool, s': Pool, x: WorkerId, p: WatchAct, w: WorkerId)
    requires WatchStep(s, s', x, p) && w in s.workers && w in s'.workers
    requires s.workers[w].watch.Setting? && s'.workers[w].watch.Waited?
    ensures s'.workers[w].value == s.workers[w].watch.final
  {
    WatchFrame(s, s', x, p);
  }
}
