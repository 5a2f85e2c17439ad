/**
 Which entries are never dealt with: exactly those whose worker crashed while it had them in hand. The
 workers read nothing but `>`, so nobody takes such an entry up again.
 */
module Losses {
  import opened Protocol
  import opened QueueSafety
  import opened Wrappers

  predicate HeldBy(s: State, w: WorkerId, e: nat)
  {
    w in s.workers && Holding(s.workers[w]) == Some(e)
  }

  /** Pending, with no worker that holds it. */
  ghost predicate Lost(s: State, e: nat)
  {
    e in Pending(s.group) && forall w :: !HeldBy(s, w, e)
  }

  /** `log` only grew, and about `e` by nothing but effects that were already on their way. */
  ghost predicate NothingMoreAbout(e: nat, log: seq<Event>, log': seq<Event>)
  {
    log <= log' && forall i :: |log| <= i < |log'| && log'[i].entry == e ==> log'[i].ToolRan?
  }

  // ---- one step ----

  /** A worker's step leaves the other workers alone, and only a read fills its own hands. */
  lemma WorkKeepsHands(s: State, w: WorkerId, work: WorkStep)
    ensures var s' := DoWork(s, w, work);
            && (forall v, e: nat :: v != w ==> (HeldBy(s', v, e) <==> HeldBy(s, v, e)))
            && (forall e: nat :: e < Last(s.group) && !HeldBy(s, w, e) ==> !HeldBy(s', w, e))
  {
  }

  /** A worker's step is about no entry but the one it holds, or a new one. */
  lemma WorkIsLocal(s: State, w: WorkerId, work: WorkStep, e: nat)
    requires !HeldBy(s, w, e) && e < Last(s.group)
    ensures var s' := DoWork(s, w, work);
            (e in Pending(s'.group) <==> e in Pending(s.group)) && NothingMoreAbout(e, s.log, s'.log)
  {
  }

  lemma SameWorkersSameLost(s: State, s': State, e: nat)
    requires s'.workers == s.workers && s'.group == s.group
    ensures Lost(s', e) <==> Lost(s, e)
  {
    assert forall v :: HeldBy(s', v, e) <==> HeldBy(s, v, e);
  }

  lemma CreatedSameLost(s: State, e: nat)
    ensures Lost(s.(group := GroupCreated(s.group)), e) <==> Lost(s, e)
  {
    var s' := s.(group := GroupCreated(s.group));
    assert forall v :: HeldBy(s', v, e) <==> HeldBy(s, v, e);
  }

  /** Only workers' steps can change what is lost. */
  lemma OthersLoseNothing(s: State, step: Step, e: nat)
    requires !step.Work?
    ensures Lost(Next(s, step), e) <==> Lost(s, e)
    ensures NothingMoreAbout(e, s.log, Next(s, step).log)
  {
    match step
    case CreateGroup => CreatedSameLost(s, e);
    case Inject(_) => SameWorkersSameLost(s, Next(s, step), e);
    case Edit => SameWorkersSameLost(s, Next(s, step), e);
    case Land(_) => SameWorkersSameLost(s, Next(s, step), e);
    case Browse(c, tab) =>
      TabsOnlyQueue(s, c, tab);
      SameWorkersSameLost(s, Next(s, step), e);
    case Relay(sub) =>
      RelayOnlyQueues(s, sub);
      SameWorkersSameLost(s, Next(s, step), e);
  }

  lemma LostStaysLost(s: State, step: Step, e: nat)
    requires QueueSafe(s) && Lost(s, e)
    ensures Lost(Next(s, step), e) && NothingMoreAbout(e, s.log, Next(s, step).log)
  {
    if step.Work? {
      WorkKeepsHands(s, step.worker, step.work);
      WorkIsLocal(s, step.worker, step.work, e);
    } else {
      OthersLoseNothing(s, step, e);
    }
  }

  /** A crash with an entry in hand loses the entry. */
  lemma CrashLosesEntry(s: State, w: WorkerId, e: nat)
    requires QueueSafe(s) && HeldBy(s, w, e)
    ensures Lost(Next(s, Work(w, Crash)), e) && s.log <= Next(s, Work(w, Crash)).log
  {
    var s' := Next(s, Work(w, Crash));
    forall v ensures !HeldBy(s', v, e) {
      assert v != w ==> !HeldBy(s, v, e);
    }
  }

  /** Nothing else does. */
  lemma OnlyCrashLoses(s: State, step: Step, e: nat)
    requires QueueSafe(s) && !Lost(s, e) && Lost(Next(s, step), e)
    ensures step.Work? && step.work.Crash? && HeldBy(s, step.worker, e)
  {
    if step.Work? {
      WorkLosesByCrash(s, step.worker, step.work, e);
    } else {
      OthersLoseNothing(s, step, e);
    }
  }

  lemma WorkLosesByCrash(s: State, w: WorkerId, work: WorkStep, e: nat)
    requires QueueSafe(s) && !Lost(s, e) && Lost(DoWork(s, w, work), e)
    ensures work.Crash? && HeldBy(s, w, e)
  {
    var s' := DoWork(s, w, work);
    WorkKeepsHands(s, w, work);
    if HeldBy(s, w, e) {
      HolderLetsGo(s, w, work, e);
    } else if e < Last(s.group) {
      WorkIsLocal(s, w, work, e);
      assert Lost(s, e);
    } else {
      assert HeldBy(s', w, e);
    }
  }

  /** A worker parts with its entry by acknowledging it or by crashing. */
  lemma HolderLetsGo(s: State, w: WorkerId, work: WorkStep, e: nat)
    requires QueueSafe(s) && HeldBy(s, w, e)
    ensures var s' := DoWork(s, w, work); HeldBy(s', w, e) || work.Crash? || e !in Pending(s'.group)
  {
  }

  // ---- runs ----

  lemma NothingMoreYet(e: nat, a: seq<Event>, b: seq<Event>, c: seq<Event>)
    requires NothingMoreAbout(e, a, b) && NothingMoreAbout(e, b, c)
    ensures NothingMoreAbout(e, a, c)
  {
  }

  lemma LostOneMore(s: State, step: Step, s': State, e: nat)
    requires QueueSafe(s) && Lost(s, e) && s' == Next(s, step)
    ensures Lost(s', e) && NothingMoreAbout(e, s.log, s'.log)
  {
    LostStaysLost(s, step, e);
  }

  /** In any continuation of a run a lost entry stays pending, and no turn is run for it. */
  lemma {:induction false} LostForGood(steps: seq<Step>, more: seq<Step>, e: nat)
    requires Lost(Run(steps), e)
    ensures Lost(Run(steps + more), e) && NothingMoreAbout(e, Run(steps).log, Run(steps + more).log)
  {
    RunLonger(steps, more);
    if |more| > 0 {
      var n := |more| - 1;
      LostForGood(steps, more[..n], e);
      QueueAlwaysSafe(steps + more[..n]);
      var before, after := Run(steps + more[..n]), Run(steps + more);
      LostOneMore(before, more[n], after, e);
      NothingMoreYet(e, Run(steps).log, before.log, after.log);
    }
  }

  /** The k-th step of the run is the crash of `w`, which held `e`. */
  ghost predicate CrashedWith(steps: seq<Step>, k: nat, w: WorkerId, e: nat)
  {
    k < |steps| && steps[k] == Work(w, Crash) && HeldBy(Run(steps[..k]), w, e)
  }

  lemma CrashState(s: State, w: WorkerId, s': State, e: nat)
    requires QueueSafe(s) && HeldBy(s, w, e) && s' == Next(s, Work(w, Crash))
    ensures Lost(s', e) && s.log <= s'.log && (s.workers[w].Delivered? ==> s.log == s'.log)
  {
    CrashLosesEntry(s, w, e);
  }

  lemma CrashStep(steps: seq<Step>, k: nat, w: WorkerId, e: nat)
    requires CrashedWith(steps, k, w, e)
    ensures Lost(Run(steps[..k + 1]), e) && Run(steps[..k]).log <= Run(steps[..k + 1]).log
    ensures Run(steps[..k]).workers[w].Delivered? ==> Run(steps[..k]).log == Run(steps[..k + 1]).log
  {
    QueueAlwaysSafe(steps[..k]);
    RunOneMore(steps[..k], Work(w, Crash));
    assert steps[..k] + [Work(w, Crash)] == steps[..k + 1];
    CrashState(Run(steps[..k]), w, Run(steps[..k + 1]), e);
  }

  lemma CrashLasts(steps: seq<Step>, k: nat, e: nat)
    requires k <= |steps| && Lost(Run(steps[..k]), e)
    ensures Lost(Run(steps), e) && NothingMoreAbout(e, Run(steps[..k]).log, Run(steps).log)
  {
    var before, after := steps[..k], steps[k..];
    assert before + after == steps;
    LostForGood(before, after, e);
  }

  lemma {:induction false} FindCrash(steps: seq<Step>, e: nat) returns (k: nat, w: WorkerId)
    requires Lost(Run(steps), e)
    ensures CrashedWith(steps, k, w, e)
  {
    var n := |steps| - 1;
    assert |steps| > 0;
    if Lost(Run(steps[..n]), e) {
      k, w := FindCrash(steps[..n], e);
      assert steps[..n][..k] == steps[..k];
    } else {
      QueueAlwaysSafe(steps[..n]);
      OnlyCrashLoses(Run(steps[..n]), steps[n], e);
      k, w := n, steps[n].worker;
    }
  }

  /**
   An entry is lost, and stays so, if and only if a worker crashed while it held it: between reading
   it and acknowledging it.
   */
  lemma LostExactlyByCrash(steps: seq<Step>, e: nat)
    ensures Lost(Run(steps), e) <==> exists k: nat, w: WorkerId :: CrashedWith(steps, k, w, e)
  {
    if Lost(Run(steps), e) {
      var k, w := FindCrash(steps, e);
    }
    if k: nat, w: WorkerId :| CrashedWith(steps, k, w, e) {
      CrashStep(steps, k, w, e);
      CrashLasts(steps, k + 1, e);
    }
  }

  // ---- delivered, but never started ----

  predicate NotBegun(s: State, w: WorkerId, e: nat)
  {
    w in s.workers && s.workers[w] == WorkerPc.Delivered(e)
  }

  /** The k-th step of the run is the crash of `w`, which had read `e` but not begun its turn. */
  ghost predicate CrashedBefore(steps: seq<Step>, k: nat, w: WorkerId, e: nat)
  {
    k < |steps| && steps[k] == Work(w, Crash) && NotBegun(Run(steps[..k]), w, e)
  }

  /** A held entry has been started if and only if its worker has begun. */
  lemma HeldIsStarted(s: State, w: WorkerId, e: nat)
    requires QueueSafe(s) && HeldBy(s, w, e)
    ensures e < |s.stream| && e < Last(s.group)
    ensures HasStart(s.log, e) <==> !NotBegun(s, w, e)
  {
    assert AtStage(s.stream, s.log, s.workers[w]);
    assert InOrder(s.stream, AckedSet(s.group), s.log, e);
    StageTells(s.log, e, s.stream[e].sid);
  }

  lemma StartPersists(log: seq<Event>, log': seq<Event>, e: nat)
    requires log <= log' && HasStart(log, e)
    ensures HasStart(log', e)
  {
    var i :| StartAt(log, i, e);
    assert StartAt(log', i, e);
  }

  lemma NoLateStart(log: seq<Event>, log': seq<Event>, e: nat)
    requires NothingMoreAbout(e, log, log') && HasStart(log', e)
    ensures HasStart(log, e)
  {
    var i :| StartAt(log', i, e);
    assert StartAt(log, i, e);
  }

  /**
   A delivered entry's turn has started unless its worker has read it and not begun yet, or crashed
   at that very point, for instance because the answer to its XREADGROUP got lost.
   */
  lemma NotStartedMeans(steps: seq<Step>, e: nat)
    requires e < |Run(steps).stream|
    ensures e < Last(Run(steps).group) && !HasStart(Run(steps).log, e) <==>
            (exists w :: NotBegun(Run(steps), w, e)) || (exists k: nat, w: WorkerId :: CrashedBefore(steps, k, w, e))
  {
    var s := Run(steps);
    QueueAlwaysSafe(steps);
    if e < Last(s.group) && !HasStart(s.log, e) {
      EveryTurnStartsAtMostOnce(steps, e);
      if w :| HeldBy(s, w, e) {
        HeldIsStarted(s, w, e);
      } else {
        var k, w := FindCrash(steps, e);
        CrashStep(steps, k, w, e);
        CrashLasts(steps, k + 1, e);
        QueueAlwaysSafe(steps[..k]);
        HeldIsStarted(Run(steps[..k]), w, e);
        if HasStart(Run(steps[..k]).log, e) {
          StartPersists(Run(steps[..k]).log, s.log, e);
        }
        assert CrashedBefore(steps, k, w, e);
      }
    }
    if w :| NotBegun(s, w, e) {
      assert HeldBy(s, w, e);
      HeldIsStarted(s, w, e);
    }
    if k: nat, w: WorkerId :| CrashedBefore(steps, k, w, e) {
      CrashedUnstarted(steps, k, w, e);
    }
  }

  lemma CrashedUnstarted(steps: seq<Step>, k: nat, w: WorkerId, e: nat)
    requires CrashedBefore(steps, k, w, e)
    ensures e < Last(Run(steps).group) && !HasStart(Run(steps).log, e)
  {
    assert CrashedWith(steps, k, w, e);
    CrashStep(steps, k, w, e);
    CrashLasts(steps, k + 1, e);
    QueueAlwaysSafe(steps);
    QueueAlwaysSafe(steps[..k]);
    HeldIsStarted(Run(steps[..k]), w, e);
    if HasStart(Run(steps).log, e) {
      NoLateStart(Run(steps[..k + 1]).log, Run(steps).log, e);
    }
  }
}
