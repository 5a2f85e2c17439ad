/**
 Where the effects of tool calls on the data are: no effect that was asked for is lost or comes from
 nowhere, and every version of the data is accounted for.
 */
module Effects {
  import opened Protocol
  import opened QueueSafety
  import opened Routing
  import opened Wrappers

  /** How many effects the calls of an entry have asked for. */
  function Asked(log: seq<Event>, e: nat): nat
  {
    if |log| == 0 then 0
    else
      var ev := log[|log| - 1];
      Asked(log[..|log| - 1], e) + (if ev.Called? && ev.entry == e then ev.effects else 0)
  }

  /** How many have taken place. */
  function Happened(log: seq<Event>, e: nat): nat
  {
    if |log| == 0 then 0
    else
      var ev := log[|log| - 1];
      Happened(log[..|log| - 1], e) + (if ev.ToolRan? && ev.entry == e then 1 else 0)
  }

  lemma CountsAppend(log: seq<Event>, ev: Event, e: nat)
    ensures Asked(log + [ev], e) == Asked(log, e) + (if ev.Called? && ev.entry == e then ev.effects else 0)
    ensures Happened(log + [ev], e) == Happened(log, e) + (if ev.ToolRan? && ev.entry == e then 1 else 0)
  {
    assert (log + [ev])[..|log|] == log;
  }

  predicate IsCalling(workers: map<WorkerId, WorkerPc>, w: WorkerId, e: nat)
  {
    w in workers && workers[w].Calling? && workers[w].entry == e
  }

  /** What was asked for has happened, is still due from the call in progress, or is on its way. */
  ghost predicate Balanced(s: State, e: nat)
  {
    && (forall w :: IsCalling(s.workers, w, e) ==>
          Asked(s.log, e) == Happened(s.log, e) + s.workers[w].left + s.inflight[e])
    && ((forall w :: !IsCalling(s.workers, w, e)) ==> Asked(s.log, e) == Happened(s.log, e) + s.inflight[e])
  }

  /** A step of a worker about another entry changes nothing for this one. */
  lemma BalancedOther(s: State, s': State, e: nat)
    requires Balanced(s, e)
    requires forall v :: IsCalling(s'.workers, v, e) <==> IsCalling(s.workers, v, e)
    requires forall v :: IsCalling(s.workers, v, e) ==> v in s'.workers && s'.workers[v] == s.workers[v]
    requires Asked(s'.log, e) == Asked(s.log, e) && Happened(s'.log, e) == Happened(s.log, e)
    requires s'.inflight[e] == s.inflight[e]
    ensures Balanced(s', e)
  {
  }

  /** Only one worker can be calling for an entry, and not while another holds it. */
  lemma OneCaller(s: State, w: WorkerId, e: nat)
    requires QueueSafe(s) && w in s.workers && Holding(s.workers[w]) == Some(e)
    ensures forall v :: IsCalling(s.workers, v, e) ==> v == w
  {
  }

  lemma BalancedCall(s: State, w: WorkerId, n: nat, e: nat)
    requires QueueSafe(s) && Balanced(s, e)
    ensures Balanced(DoWork(s, w, Call(n)), e)
  {
    var s' := DoWork(s, w, Call(n));
    if s' != s {
      var f := s.workers[w].entry;
      CountsAppend(s.log, Called(f, n), e);
      OneCaller(s, w, f);
      if f == e {
        assert forall v :: !IsCalling(s.workers, v, e);
        assert IsCalling(s'.workers, w, e);
      } else {
        BalancedOther(s, s', e);
      }
    }
  }

  lemma BalancedTakeEffect(s: State, w: WorkerId, e: nat)
    requires QueueSafe(s) && Balanced(s, e)
    ensures Balanced(DoWork(s, w, TakeEffect), e)
  {
    var s' := DoWork(s, w, TakeEffect);
    if s' != s {
      var f := s.workers[w].entry;
      CountsAppend(s.log, ToolRan(f, s.version + 1), e);
      OneCaller(s, w, f);
      if f == e {
        assert IsCalling(s.workers, w, e) && IsCalling(s'.workers, w, e);
      } else {
        BalancedOther(s, s', e);
      }
    }
  }

  /** Giving up on a call moves what is left of it to what is on its way. */
  lemma BalancedAbandon(s: State, w: WorkerId, pc: WorkerPc, e: nat)
    requires QueueSafe(s) && Balanced(s, e) && w in s.workers && s.workers[w].Calling? && !pc.Calling?
    ensures Balanced(Abandon(WithPc(s, w, pc), s.workers[w].entry, s.workers[w].left), e)
  {
    var f := s.workers[w].entry;
    var s' := Abandon(WithPc(s, w, pc), f, s.workers[w].left);
    CountsAppend(s.log, CutShort(f), e);
    OneCaller(s, w, f);
    if f == e {
      assert IsCalling(s.workers, w, e);
      assert forall v :: !IsCalling(s'.workers, v, e);
    } else {
      BalancedOther(s, s', e);
    }
  }

  /** The remaining steps neither call nor change the data. */
  lemma QuietWork(s: State, w: WorkerId, work: WorkStep, e: nat)
    requires !work.Call? && !work.TakeEffect? && !(w in s.workers && s.workers[w].Calling?)
    ensures var s' := DoWork(s, w, work);
            && s'.inflight == s.inflight && |s'.log| <= |s.log| + 1 && s.log <= s'.log
            && (|s'.log| > |s.log| ==> !s'.log[|s.log|].Called? && !s'.log[|s.log|].ToolRan?)
            && (forall v :: IsCalling(s'.workers, v, e) <==> IsCalling(s.workers, v, e))
            && (forall v :: IsCalling(s.workers, v, e) ==> v in s'.workers && s'.workers[v] == s.workers[v])
  {
  }

  lemma SameCounts(log: seq<Event>, log': seq<Event>, e: nat)
    requires log <= log' && |log'| <= |log| + 1
    requires |log'| > |log| ==> !log'[|log|].Called? && !log'[|log|].ToolRan?
    ensures Asked(log', e) == Asked(log, e) && Happened(log', e) == Happened(log, e)
  {
    if |log'| > |log| {
      assert log' == log + [log'[|log|]];
      CountsAppend(log, log'[|log|], e);
    } else {
      assert log' == log;
    }
  }

  lemma BalancedWork(s: State, w: WorkerId, work: WorkStep, e: nat)
    requires QueueSafe(s) && Balanced(s, e)
    ensures Balanced(DoWork(s, w, work), e)
  {
    if work.Call? {
      BalancedCall(s, w, work.effects, e);
    } else if work.TakeEffect? {
      BalancedTakeEffect(s, w, e);
    } else if w in s.workers && s.workers[w].Calling? {
      if work.Return? {
        BalancedAbandon(s, w, InTurn(s.workers[w].entry), e);
      } else if work.Crash? {
        BalancedAbandon(s, w, Crashed, e);
      }
    } else {
      QuietWork(s, w, work, e);
      SameCounts(s.log, DoWork(s, w, work).log, e);
      BalancedOther(s, DoWork(s, w, work), e);
    }
  }

  lemma BalancedLanded(s: State, f: nat, e: nat)
    requires Balanced(s, e)
    ensures Balanced(Landed(s, f), e)
  {
    CountsAppend(s.log, ToolRan(f, s.version + 1), e);
    assert forall v :: IsCalling(Landed(s, f).workers, v, e) <==> IsCalling(s.workers, v, e);
  }

  lemma BalancedNext(s: State, step: Step, e: nat)
    requires QueueSafe(s) && Balanced(s, e)
    ensures Balanced(Next(s, step), e)
  {
    match step
    case Work(w, work) => BalancedWork(s, w, work, e);
    case Land(f) => BalancedLanded(s, f, e);
    case Browse(c, tab) => TabsOnlyQueue(s, c, tab);
    case Relay(sub) => RelayOnlyQueues(s, sub);
    case _ =>
  }

  /**
   Conservation: in every run, the effects an entry's calls asked for are those that have happened,
   those its call in progress still owes, and those of abandoned calls that are on their way.
   */
  lemma {:induction false} EffectsAreConserved(steps: seq<Step>, e: nat)
    ensures Balanced(Run(steps), e)
  {
    if |steps| > 0 {
      var n := |steps| - 1;
      EffectsAreConserved(steps[..n], e);
      QueueAlwaysSafe(steps[..n]);
      BalancedNext(Run(steps[..n]), steps[n], e);
    }
  }

  // ---- versions ----

  /** How often the data was changed from outside. */
  function Edits(steps: seq<Step>): nat
  {
    if |steps| == 0 then 0
    else Edits(steps[..|steps| - 1]) + (if steps[|steps| - 1].Edit? then 1 else 0)
  }

  /** How many effects are on record, of whatever entry. */
  function Effects(log: seq<Event>): nat
  {
    if |log| == 0 then 0 else Effects(log[..|log| - 1]) + (if log[|log| - 1].ToolRan? then 1 else 0)
  }

  /** A step writes at most one event, and changes the version with an effect or an edit only. */
  ghost predicate OneChange(s: State, step: Step, s': State)
  {
    && s.log <= s'.log && |s'.log| <= |s.log| + 1
    && s'.version == s.version + (if step.Edit? || (|s'.log| > |s.log| && s'.log[|s.log|].ToolRan?) then 1 else 0)
    && (step.Edit? ==> s'.log == s.log)
  }

  lemma WorkChanges(s: State, w: WorkerId, work: WorkStep)
    ensures OneChange(s, Work(w, work), DoWork(s, w, work))
  {
  }

  lemma StepChanges(s: State, step: Step)
    ensures OneChange(s, step, Next(s, step))
  {
    match step
    case Work(w, work) => WorkChanges(s, w, work);
    case Browse(c, tab) => TabsOnlyQueue(s, c, tab);
    case Relay(sub) => RelayOnlyQueues(s, sub);
    case _ =>
  }

  lemma EffectsAppend(log: seq<Event>, log': seq<Event>)
    requires log <= log' && |log'| <= |log| + 1
    ensures Effects(log') == Effects(log) + (if |log'| > |log| && log'[|log|].ToolRan? then 1 else 0)
  {
    if |log'| > |log| {
      assert log'[..|log|] == log;
    } else {
      assert log' == log;
    }
  }

  /** Every version of the data is an edit from outside or an effect on record, each counted once. */
  lemma {:induction false} VersionsAreCounted(steps: seq<Step>)
    ensures Run(steps).version == Edits(steps) + Effects(Run(steps).log)
  {
    if |steps| > 0 {
      var n := |steps| - 1;
      VersionsAreCounted(steps[..n]);
      StepChanges(Run(steps[..n]), steps[n]);
      EffectsAppend(Run(steps[..n]).log, Run(steps).log);
    }
  }

  // ---- a call that is answered ----

  /** After `n` effects of a call that owed `left`. */
  ghost predicate Taken(s: State, s': State, w: WorkerId, e: nat, left: int, n: nat)
  {
    && 0 <= left - n && s'.workers == s.workers[w := Calling(e, left - n)]
    && s'.version == s.version + n && s'.inflight == s.inflight
  }

  lemma TakeOne(s: State, mid: State, s': State, w: WorkerId, e: nat, left: nat, n: nat)
    requires n < left && Taken(s, mid, w, e, left, n) && s' == Next(mid, Work(w, TakeEffect))
    ensures Taken(s, s', w, e, left, n + 1)
  {
    assert s.workers[w := Calling(e, left - n)][w := Calling(e, left - n - 1)] ==
           s.workers[w := Calling(e, left - n - 1)];
  }

  predicate AllTake(more: seq<Step>, w: WorkerId)
  {
    forall i :: 0 <= i < |more| ==> more[i] == Work(w, TakeEffect)
  }

  lemma {:induction false} EffectsAreTaken(steps: seq<Step>, more: seq<Step>, w: WorkerId, e: nat, left: nat)
    requires w in Run(steps).workers && Run(steps).workers[w] == Calling(e, left)
    requires AllTake(more, w) && |more| <= left
    ensures Taken(Run(steps), Run(steps + more), w, e, left, |more|)
  {
    RunLonger(steps, more);
    if |more| == 0 {
      assert Run(steps).workers[w := Calling(e, left)] == Run(steps).workers;
    } else {
      var n := |more| - 1;
      EffectsAreTaken(steps, more[..n], w, e, left);
      TakeOne(Run(steps), Run(steps + more[..n]), Run(steps + more), w, e, left, n);
    }
  }

  /** Nothing but the version has changed, by `n`, for the workers and what is on its way. */
  ghost predicate Advanced(s: State, s': State, n: nat)
  {
    s'.version == s.version + n && s'.workers == s.workers && s'.inflight == s.inflight
  }

  lemma CallIsMade(s: State, called: State, w: WorkerId, n: nat)
    requires w in s.workers && s.workers[w].InTurn? && called == Next(s, Work(w, Call(n)))
    ensures called.workers == s.workers[w := Calling(s.workers[w].entry, n)]
    ensures called.version == s.version && called.inflight == s.inflight
  {
  }

  lemma CallReturns(s: State, called: State, taken: State, s': State, w: WorkerId, n: nat)
    requires w in s.workers && s.workers[w].InTurn? && called == Next(s, Work(w, Call(n)))
    requires Taken(called, taken, w, s.workers[w].entry, n, n) && s' == Next(taken, Work(w, Return))
    ensures Advanced(s, s', n)
  {
    var e := s.workers[w].entry;
    CallIsMade(s, called, w, n);
    assert s.workers[w := Calling(e, n)][w := Calling(e, 0)][w := InTurn(e)] == s.workers;
  }

  /** A call whose effects all take place before it returns leaves nothing on its way. */
  lemma CallTakesEffect(steps: seq<Step>, w: WorkerId, more: seq<Step>)
    requires w in Run(steps).workers && Run(steps).workers[w].InTurn? && AllTake(more, w)
    ensures Advanced(Run(steps), Run(steps + [Work(w, Call(|more|))] + more + [Work(w, Return)]), |more|)
  {
    var called := steps + [Work(w, Call(|more|))];
    var s, s', n := Run(steps), Run(called), |more|;
    RunOneMore(steps, Work(w, Call(n)));
    CallIsMade(s, s', w, n);
    EffectsAreTaken(called, more, w, s.workers[w].entry, n);
    RunOneMore(called + more, Work(w, Return));
    CallReturns(s, s', Run(called + more), Run(called + more + [Work(w, Return)]), w, n);
  }
}
