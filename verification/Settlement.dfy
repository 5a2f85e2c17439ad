/**
 What an acknowledgement is worth: the reply is out, the change is announced, and the announcement
 covers every effect of the turn's tool calls except those that land after it.
 */
module Settlement {
  import opened Protocol
  import opened QueueSafety
  import opened Wrappers

  /** Event j announces the change, after the reply, if a reply was due. */
  ghost predicate SettledBy(log: seq<Event>, j: int, e: int, sid: string)
  {
    ChangeAt(log, j, e) && (sid != "" ==> Replied(log[..j], e))
  }

  /**
   An acknowledgement is the last word on its entry: by then the reply was published, if the entry
   names a session, and after it the change. It holds whether the turn returned or raised, since both
   end in the same way. Nothing of this happens twice.
   */
  lemma AcknowledgedMeansSettled(steps: seq<Step>, k: nat)
    requires k < |Run(steps).log| && Run(steps).log[k].Acked?
    ensures var s := Run(steps); var e := s.log[k].entry;
            && e < |s.stream|
            && (exists j :: j < k && SettledBy(s.log, j, e, s.stream[e].sid))
            && (forall i, j :: ChangeAt(s.log, i, e) && ChangeAt(s.log, j, e) ==> i == j)
            && (forall i, j :: ReplyAt(s.log, i, e) && ReplyAt(s.log, j, e) ==> i == j)
            && (forall i :: AckAt(s.log, i, e) ==> i == k)
  {
    QueueAlwaysSafe(steps);
    var s := Run(steps);
    var e := s.log[k].entry;
    var sid := s.stream[e].sid;
    assert InOrder(s.stream, AckedSet(s.group), s.log, e);
    StageAt(s.log, k, e, sid);
    StageTells(s.log[..k], e, sid);
    var j :| ChangeAt(s.log[..k], j, e);
    StageAt(s.log, j, e, sid);
    StageTells(s.log[..j], e, sid);
    assert SettledBy(s.log, j, e, sid);
    forall i, l | ChangeAt(s.log, i, e) && ChangeAt(s.log, l, e) ensures i == l {
      MovesOnce(s.log, i, l, e, sid);
    }
    forall i, l | ReplyAt(s.log, i, e) && ReplyAt(s.log, l, e) ensures i == l {
      MovesOnce(s.log, i, l, e, sid);
    }
    forall i | AckAt(s.log, i, e) ensures i == k {
      MovesOnce(s.log, i, k, e, sid);
    }
  }

  // ---- what an announcement covers ----

  predicate IsChange(log: seq<Event>, j: nat)
  {
    j < |log| && log[j].ChangePublished?
  }

  /** The version announced by event j includes every effect of its own turn. */
  ghost predicate Covered(log: seq<Event>, j: nat)
  {
    IsChange(log, j) && forall i :: ToolAt(log, i, log[j].entry) ==> log[i].version <= log[j].asOf
  }

  /** None of the turn's effects landed after event j. */
  ghost predicate NoneLate(log: seq<Event>, j: nat)
  {
    IsChange(log, j) && forall i :: ToolAt(log, i, log[j].entry) ==> i < j
  }

  /** An announcement covers all effects of its turn if and only if none has landed after it. */
  lemma CoveredIffNoneLate(steps: seq<Step>, j: nat)
    requires IsChange(Run(steps).log, j)
    ensures Covered(Run(steps).log, j) <==> NoneLate(Run(steps).log, j)
  {
    QueueAlwaysSafe(steps);
  }

  /** A turn that has announced its change calls no more tools. */
  lemma NoCallsAfterChange(s: State, w: WorkerId, j: nat)
    requires QueueSafe(s) && IsChange(s.log, j) && w in s.workers
    ensures !(s.workers[w].Calling? && s.workers[w].entry == s.log[j].entry)
  {
    var e := s.log[j].entry;
    assert InOrder(s.stream, AckedSet(s.group), s.log, e);
    assert AtStage(s.stream, s.log, s.workers[w]);
    assert ChangeAt(s.log, j, e);
    StageTells(s.log, e, s.stream[e].sid);
  }

  /** The step is one of a worker that waits for a tool call of entry `e`. */
  predicate ByCaller(s: State, step: Step, e: nat)
  {
    && step.Work? && step.worker in s.workers
    && s.workers[step.worker].Calling? && s.workers[step.worker].entry == e
  }

  /** How the log continues: an effect is either a running call's or one that lands. */
  ghost predicate EffectsTraced(s: State, step: Step, s': State)
  {
    && s.log <= s'.log && |s'.log| <= |s.log| + 1
    && (|s'.log| > |s.log| && s'.log[|s.log|].ToolRan? ==>
          ByCaller(s, step, s'.log[|s.log|].entry) || (step.Land? && s'.log[|s.log|].entry in s.inflight))
    && (forall e :: e in s'.inflight && e !in s.inflight ==> ByCaller(s, step, e))
  }

  lemma WorkTraced(s: State, w: WorkerId, work: WorkStep)
    ensures EffectsTraced(s, Work(w, work), DoWork(s, w, work))
  {
  }

  lemma LandTraced(s: State, e: nat)
    ensures EffectsTraced(s, Land(e), Landed(s, e))
  {
  }

  lemma StepTraced(s: State, step: Step)
    ensures EffectsTraced(s, step, Next(s, step))
  {
    match step
    case Work(w, work) => WorkTraced(s, w, work);
    case Land(e) => LandTraced(s, e);
    case Browse(c, tab) => TabsOnlyQueue(s, c, tab);
    case Relay(sub) => RelayOnlyQueues(s, sub);
    case _ =>
  }

  /** Nothing of the turn has landed late, and nothing is on its way. */
  ghost predicate Quiet(s: State, j: nat)
  {
    NoneLate(s.log, j) && s.log[j].entry !in s.inflight
  }

  lemma QuietNext(s: State, step: Step, s': State, j: nat)
    requires QueueSafe(s) && Quiet(s, j) && EffectsTraced(s, step, s')
    ensures Quiet(s', j)
  {
    var e := s.log[j].entry;
    if step.Work? && step.worker in s.workers {
      NoCallsAfterChange(s, step.worker, j);
    }
    assert !ByCaller(s, step, e);
    forall i | ToolAt(s'.log, i, e) ensures i < j {
      assert i < |s.log| ==> ToolAt(s.log, i, e);
    }
  }

  lemma {:induction false} QuietForGood(steps: seq<Step>, more: seq<Step>, j: nat)
    requires Quiet(Run(steps), j)
    ensures Quiet(Run(steps + more), j)
  {
    RunLonger(steps, more);
    if |more| > 0 {
      var n := |more| - 1;
      QuietForGood(steps, more[..n], j);
      QueueAlwaysSafe(steps + more[..n]);
      StepTraced(Run(steps + more[..n]), more[n]);
      QuietNext(Run(steps + more[..n]), more[n], Run(steps + more), j);
    }
  }

  lemma LandingUncovers(s: State, j: nat)
    requires QueueSafe(s) && IsChange(s.log, j) && s.log[j].entry in s.inflight
    ensures !Covered(Next(s, Land(s.log[j].entry)).log, j)
  {
    assert ToolAt(Next(s, Land(s.log[j].entry)).log, |s.log|, s.log[j].entry);
  }

  /**
   An announcement covers all effects of its turn, in every continuation of the run, if and only if
   none has landed after it and none is still on its way.
   */
  lemma CoveredForGood(steps: seq<Step>, j: nat)
    requires IsChange(Run(steps).log, j)
    ensures (forall more :: Covered(Run(steps + more).log, j)) <==>
            NoneLate(Run(steps).log, j) && Run(steps).log[j].entry !in Run(steps).inflight
  {
    var s := Run(steps);
    var e := s.log[j].entry;
    QueueAlwaysSafe(steps);
    if Quiet(s, j) {
      forall more ensures Covered(Run(steps + more).log, j) {
        QuietForGood(steps, more, j);
        CoveredIffNoneLate(steps + more, j);
      }
    } else if e in s.inflight {
      RunOneMore(steps, Land(e));
      LandingUncovers(s, j);
      assert !Covered(Run(steps + [Land(e)]).log, j);
    } else {
      assert steps + [] == steps;
      CoveredIffNoneLate(steps, j);
      assert !Covered(Run(steps + []).log, j);
    }
  }

  /** Only a call that was cut short has effects after the announcement. */
  lemma {:induction false} LateWasCut(steps: seq<Step>, i: nat, j: nat)
    requires IsChange(Run(steps).log, j) && ToolAt(Run(steps).log, i, Run(steps).log[j].entry) && j < i
    ensures WasCut(Run(steps).log, Run(steps).log[j].entry)
  {
    assert |steps| > 0;
    var n := |steps| - 1;
    StepTraced(Run(steps[..n]), steps[n]);
    QueueAlwaysSafe(steps[..n]);
    if i < |Run(steps[..n]).log| {
      LateWasCut(steps[..n], i, j);
      CutStays(Run(steps[..n]).log, Run(steps).log, Run(steps).log[j].entry);
    } else {
      LandsLate(Run(steps[..n]), steps[n], Run(steps), i, j);
    }
  }

  lemma LandsLate(s: State, step: Step, s': State, i: nat, j: nat)
    requires QueueSafe(s) && EffectsTraced(s, step, s') && IsChange(s.log, j)
    requires i >= |s.log| && ToolAt(s'.log, i, s.log[j].entry)
    ensures WasCut(s'.log, s.log[j].entry)
  {
    var e := s.log[j].entry;
    if step.Work? && step.worker in s.workers {
      NoCallsAfterChange(s, step.worker, j);
    }
    assert !ByCaller(s, step, e);
    CutStays(s.log, s'.log, e);
  }

  lemma CutStays(log: seq<Event>, log': seq<Event>, e: nat)
    requires log <= log'
    ensures WasCut(log, e) ==> WasCut(log', e)
  {
  }

  /** If no call of the turn was cut short, the announcement covers all of its effects for good. */
  lemma UncutIsCovered(steps: seq<Step>, j: nat, more: seq<Step>)
    requires IsChange(Run(steps).log, j) && !WasCut(Run(steps).log, Run(steps).log[j].entry)
    ensures Covered(Run(steps + more).log, j)
  {
    QueueAlwaysSafe(steps);
    forall i | ToolAt(Run(steps).log, i, Run(steps).log[j].entry) ensures i < j {
      if j < i {
        LateWasCut(steps, i, j);
      }
    }
    assert Quiet(Run(steps), j);
    QuietForGood(steps, more, j);
    CoveredIffNoneLate(steps + more, j);
  }

  // ---- a run in which one effect is not covered ----

  /** An entry without a session. */
  const ASKED := INIT.(stream := [Entry("", "hi", None)])

  /** A worker is ready to read it. */
  lemma WorkerReady() returns (steps: seq<Step>)
    ensures Run(steps) == ASKED.(workers := map[0 := Reading], group := Some(Group(0, {}, {})))
  {
    steps := Extend([], INIT, Inject("hi"));
    steps := Extend(steps, ASKED, Work(0, Spawn));
    steps := Extend(steps, ASKED.(workers := map[0 := Booting]), Work(0, EnsureGroup));
  }

  /** It has read it and begun. */
  lemma EntryRead() returns (steps: seq<Step>)
    ensures Run(steps) == ASKED.(workers := map[0 := InTurn(0)], group := Some(Group(1, {0}, {})),
                                 log := [Started(0, 0)])
  {
    steps := WorkerReady();
    var s := ASKED.(workers := map[0 := Reading], group := Some(Group(0, {}, {})));
    steps := Extend(steps, s, Work(0, Read));
    assert {} + {0} == {0};
    s := s.(workers := map[0 := WorkerPc.Delivered(0)], group := Some(Group(1, {0}, {})));
    steps := Extend(steps, s, Work(0, Begin));
    assert [] + [Started(0, 0)] == [Started(0, 0)];
  }

  const CUT := ASKED.(workers := map[0 := InTurn(0)], group := Some(Group(1, {0}, {})),
                      log := [Started(0, 0), Called(0, 1), CutShort(0)], inflight := multiset{0})

  /** It calls one tool and gives up on the effect. */
  lemma CallCutShort() returns (steps: seq<Step>)
    ensures Run(steps) == CUT
  {
    steps := EntryRead();
    var s := Run(steps);
    steps := Extend(steps, s, Work(0, Call(1)));
    s := s.(workers := map[0 := Calling(0, 1)], log := [Started(0, 0)] + [Called(0, 1)]);
    steps := Extend(steps, s, Work(0, Return));
    assert multiset{}[0 := 1] == multiset{0};
    assert [Started(0, 0)] + [Called(0, 1)] + [CutShort(0)] == CUT.log;
  }

  const TOLD := CUT.(workers := map[0 := ChangeOut(0)], bus := [ChangeNote(0)],
                     log := [Started(0, 0), Called(0, 1), CutShort(0), ChangePublished(0, 0)])

  const OVER := TOLD.(workers := map[0 := Reading], group := Some(Group(1, {}, {0})),
                      log := [Started(0, 0), Called(0, 1), CutShort(0), ChangePublished(0, 0), Acked(0)])

  /** It ends the turn. */
  lemma EndCutTurn() returns (steps: seq<Step>)
    ensures Run(steps) == CUT.(workers := map[0 := ReplyOut(0)])
  {
    steps := CallCutShort();
    steps := Extend(steps, CUT, Work(0, EndTurn("ok")));
    var s := CUT.(workers := map[0 := TurnDone(0, "ok")]);
    steps := Extend(steps, s, Work(0, PublishReply(true)));
  }

  /** It announces the change. */
  lemma TellCutTurn() returns (steps: seq<Step>)
    ensures Run(steps) == TOLD
  {
    steps := EndCutTurn();
    var s := CUT.(workers := map[0 := ReplyOut(0)]);
    steps := Extend(steps, s, Work(0, PublishChange(true)));
    assert [] + [ChangeNote(0)] == [ChangeNote(0)];
    assert CUT.log + [ChangePublished(0, 0)] == TOLD.log;
  }

  /** It acknowledges. */
  lemma FinishTurn() returns (steps: seq<Step>)
    ensures Run(steps) == OVER
  {
    steps := TellCutTurn();
    steps := Extend(steps, TOLD, Work(0, Ack));
    assert TOLD.log + [Acked(0)] == OVER.log;
    assert {0} - {0} == {} && {} + {0} == {0};
  }

  /** An entry can be acknowledged with an effect of its turn still to come, which no announcement covers. */
  lemma LateEffectIsNotCovered()
    ensures exists steps, j, k :: 0 <= j < k && IsChange(Run(steps).log, j) && !Covered(Run(steps).log, j)
                               && AckAt(Run(steps).log, k, Run(steps).log[j].entry)
  {
    var steps := FinishTurn();
    var s := OVER;
    assert s.log[3] == ChangePublished(0, 0) && s.log[4] == Acked(0);
    QueueAlwaysSafe(steps);
    LandingUncovers(s, 3);
    steps := Extend(steps, s, Land(0));
    assert IsChange(Run(steps).log, 3) && AckAt(Run(steps).log, 4, 0);
  }
}
