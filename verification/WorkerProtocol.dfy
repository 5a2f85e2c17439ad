/**
 The worker of the Protocol module and the worker of the Worker module do the same. What main's loop
 does for an entry, the protocol's worker logs, in the same order, whatever everybody else does in
 between; and what the protocol logs about an entry is always what the loop does, or a part of it.
 */
module WorkerProtocol {
  import opened Losses
  import opened Protocol
  import opened QueueSafety
  import opened Routing
  import opened Worker
  import opened Wrappers

  /** What an effect of the loop and an event of the protocol have in common. */
  datatype Kind = Tool | Reply(text: string) | Change | Acknowledged

  function EffectKind(x: Effect): Kind
  {
    match x
    case Ran(_) => Tool
    case Publish(channel, payload) => if channel == "todos:changed" then Change else Reply(payload)
    case Xack(_) => Acknowledged
  }

  function EffectKinds(effects: seq<Effect>): seq<Kind>
  {
    seq(|effects|, i requires 0 <= i < |effects| => EffectKind(effects[i]))
  }

  /** Effects on the data are not the worker's own doing, and a start leaves no trace outside. */
  function EventKinds(ev: Event): seq<Kind>
  {
    match ev
    case Called(_, _) => [Tool]
    case ReplyPublished(_, text) => [Reply(text)]
    case ChangePublished(_, _) => [Change]
    case Acked(_) => [Acknowledged]
    case _ => []
  }

  /** What has been done about one entry, in order. */
  function Kinds(log: seq<Event>, e: nat): seq<Kind>
  {
    if |log| == 0 then []
    else
      var ev := log[|log| - 1];
      Kinds(log[..|log| - 1], e) + (if ev.entry == e then EventKinds(ev) else [])
  }

  lemma KindsAppend(log: seq<Event>, ev: Event, e: nat)
    ensures Kinds(log + [ev], e) == Kinds(log, e) + (if ev.entry == e then EventKinds(ev) else [])
  {
    assert (log + [ev])[..|log|] == log;
  }

  lemma {:induction false} KindsSame(log: seq<Event>, log': seq<Event>, e: nat)
    requires NothingMoreAbout(e, log, log')
    ensures Kinds(log', e) == Kinds(log, e)
  {
    if |log'| == |log| {
      assert log' == log;
    } else {
      KindsSame(log, log'[..|log'| - 1], e);
    }
  }

  // ---- a worker by itself ----

  /** What one step of a worker makes of its pc, and what it does about its entry. */
  function Moved(pc: WorkerPc, work: WorkStep, sid: string): (WorkerPc, seq<Kind>)
  {
    match (pc, work)
    case (_, Crash) => (Crashed, [])
    case (Delivered(e), Begin) => (InTurn(e), [])
    case (InTurn(e), Call(n)) => (Calling(e, n), [Tool])
    case (Calling(e, _), Return) => (InTurn(e), [])
    case (InTurn(e), EndTurn(reply)) => (TurnDone(e, reply), [])
    case (TurnDone(e, reply), PublishReply(_)) => (ReplyOut(e), if sid == "" then [] else [Reply(reply)])
    case (ReplyOut(e), PublishChange(_)) => (ChangeOut(e), [Change])
    case (ChangeOut(_), Ack) => (Reading, [Acknowledged])
    case _ => (pc, [])
  }

  function Alone(pc: WorkerPc, own: seq<WorkStep>, sid: string): (WorkerPc, seq<Kind>)
  {
    if |own| == 0 then (pc, [])
    else
      var (before, kinds) := Alone(pc, own[..|own| - 1], sid);
      var (after, more) := Moved(before, own[|own| - 1], sid);
      (after, kinds + more)
  }

  // ---- a worker among others ----

  /** Not a step of worker `w`; effects on the data are the tool server's steps, not the worker's. */
  predicate Foreign(step: Step, w: WorkerId)
  {
    step.Work? && step.worker == w ==> step.work.TakeEffect?
  }

  /** The worker's own steps, with others' before, between and after them. */
  function Weave(steps: seq<Step>, w: WorkerId, own: seq<WorkStep>, others: nat -> seq<Step>): seq<Step>
  {
    if |own| == 0 then steps + others(0)
    else Weave(steps, w, own[..|own| - 1], others) + [Work(w, own[|own| - 1])] + others(|own|)
  }

  /** Calls in progress differ in how many effects they have had. */
  predicate Alike(pc: WorkerPc, pc': WorkerPc)
  {
    pc == pc' || (pc.Calling? && pc'.Calling? && pc.entry == pc'.entry)
  }

  /** Worker `w` is at `pc`, `kinds` is what has been done about `e`, and nobody else has it. */
  ghost predicate Reached(s: State, w: WorkerId, e: nat, pc: WorkerPc, sid: string, kinds: seq<Kind>)
  {
    && w in s.workers && Alike(s.workers[w], pc)
    && (Holding(pc) == None || Holding(pc) == Some(e))
    && e < |s.stream| && s.stream[e].sid == sid && e < Last(s.group)
    && (forall v :: v != w ==> !HeldBy(s, v, e))
    && Kinds(s.log, e) == kinds
  }

  lemma ForeignWork(s: State, v: WorkerId, work: WorkStep, w: WorkerId, e: nat, pc: WorkerPc, sid: string,
                    kinds: seq<Kind>)
    requires Reached(s, w, e, pc, sid, kinds) && v != w
    ensures Reached(DoWork(s, v, work), w, e, pc, sid, kinds)
  {
    var s' := DoWork(s, v, work);
    WorkKeepsHands(s, v, work);
    WorkIsLocal(s, v, work, e);
    KindsSame(s.log, s'.log, e);
    WorkOnlyLogs(s, v, work);
    OthersKeepPc(s, v, work, w);
  }

  lemma OthersKeepPc(s: State, v: WorkerId, work: WorkStep, w: WorkerId)
    requires v != w && w in s.workers
    ensures var s' := DoWork(s, v, work);
            w in s'.workers && s'.workers[w] == s.workers[w] && Last(s.group) <= Last(s'.group)
  {
  }

  lemma EffectTaken(s: State, w: WorkerId, e: nat, pc: WorkerPc, sid: string, kinds: seq<Kind>)
    requires Reached(s, w, e, pc, sid, kinds)
    ensures Reached(DoWork(s, w, TakeEffect), w, e, pc, sid, kinds)
  {
    var s' := DoWork(s, w, TakeEffect);
    if s' != s {
      KindsAppend(s.log, s'.log[|s.log|], e);
      forall v | v != w ensures !HeldBy(s', v, e) {
        assert !HeldBy(s, v, e);
      }
    }
  }

  lemma ForeignStep(s: State, step: Step, w: WorkerId, e: nat, pc: WorkerPc, sid: string, kinds: seq<Kind>)
    requires Reached(s, w, e, pc, sid, kinds) && Foreign(step, w)
    ensures Reached(Next(s, step), w, e, pc, sid, kinds)
  {
    if step.Work? {
      if step.worker == w {
        EffectTaken(s, w, e, pc, sid, kinds);
      } else {
        ForeignWork(s, step.worker, step.work, w, e, pc, sid, kinds);
      }
    } else {
      OthersKeepWorkers(s, step);
      KindsSame(s.log, Next(s, step).log, e);
      forall v | v != w ensures !HeldBy(Next(s, step), v, e) {
        assert !HeldBy(s, v, e);
      }
    }
  }

  lemma OthersKeepWorkers(s: State, step: Step)
    requires !step.Work?
    ensures var s' := Next(s, step);
            && s'.workers == s.workers && s.stream <= s'.stream && Last(s'.group) == Last(s.group)
            && forall e: nat :: NothingMoreAbout(e, s.log, s'.log)
  {
    match step
    case Browse(c, tab) => TabsOnlyQueue(s, c, tab);
    case Relay(sub) => RelayOnlyQueues(s, sub);
    case _ =>
  }

  lemma {:induction false} ForeignSteps(steps: seq<Step>, more: seq<Step>, w: WorkerId, e: nat, pc: WorkerPc,
                                        sid: string, kinds: seq<Kind>)
    requires Reached(Run(steps), w, e, pc, sid, kinds)
    requires forall i :: 0 <= i < |more| ==> Foreign(more[i], w)
    ensures Reached(Run(steps + more), w, e, pc, sid, kinds)
  {
    RunLonger(steps, more);
    if |more| > 0 {
      var n := |more| - 1;
      ForeignSteps(steps, more[..n], w, e, pc, sid, kinds);
      ForeignStep(Run(steps + more[..n]), more[n], w, e, pc, sid, kinds);
    }
  }

  /** What a worker holds is an entry of the stream, read through a group. */
  predicate Grounded(s: State, w: WorkerId)
  {
    w in s.workers && (Holding(s.workers[w]).Some? ==> s.group.Some? && Holding(s.workers[w]).value < |s.stream|)
  }

  lemma SafeIsGrounded(s: State, w: WorkerId)
    requires QueueSafe(s) && w in s.workers
    ensures Grounded(s, w)
  {
    if Holding(s.workers[w]).Some? {
      assert Holding(s.workers[w]).value in Pending(s.group);
    }
  }

  lemma OwnStep(s: State, w: WorkerId, e: nat, pc: WorkerPc, sid: string, kinds: seq<Kind>, work: WorkStep)
    requires QueueSafe(s) && Reached(s, w, e, pc, sid, kinds) && !work.Read? && !pc.Booting?
    ensures var (pc', more) := Moved(pc, work, sid);
            Reached(DoWork(s, w, work), w, e, pc', sid, kinds + more) && !pc'.Booting?
  {
    WorkKeepsHands(s, w, work);
    SafeIsGrounded(s, w);
    OwnPc(s, w, work);
    OwnKinds(s, w, work, e);
  }

  lemma OwnPc(s: State, w: WorkerId, work: WorkStep)
    requires Grounded(s, w) && !work.Read? && !s.workers[w].Booting?
    ensures var s' := DoWork(s, w, work);
            && s'.stream == s.stream && Last(s'.group) == Last(s.group)
            && w in s'.workers && Alike(s'.workers[w], Moved(s.workers[w], work, "").0)
  {
    if work.Return? || work.Crash? {
      OwnPcAtEnd(s, w, work);
    }
  }

  lemma OwnPcAtEnd(s: State, w: WorkerId, work: WorkStep)
    requires w in s.workers && (work.Return? || work.Crash?)
    ensures var s' := DoWork(s, w, work);
            && s'.stream == s.stream && s'.group == s.group
            && w in s'.workers && s'.workers[w] == Moved(s.workers[w], work, "").0
  {
  }

  /** The log has grown by nothing that shows, or by one event about `e` that shows as `kinds`. */
  ghost predicate LogsKinds(log: seq<Event>, log': seq<Event>, e: nat, kinds: seq<Kind>)
  {
    || (log' == log && kinds == [])
    || (log <= log' && |log'| == |log| + 1 && log'[|log|].entry == e && EventKinds(log'[|log|]) == kinds)
  }

  lemma LogsKindsMeans(log: seq<Event>, log': seq<Event>, e: nat, kinds: seq<Kind>)
    requires LogsKinds(log, log', e, kinds)
    ensures Kinds(log', e) == Kinds(log, e) + kinds
  {
    if |log'| > |log| {
      KindsAppend(log, log'[|log|], e);
      assert log' == log + [log'[|log|]];
    }
  }

  lemma OwnEvent(s: State, w: WorkerId, work: WorkStep, e: nat)
    requires Grounded(s, w) && e < |s.stream|
    requires Holding(s.workers[w]) == None || Holding(s.workers[w]) == Some(e)
    ensures LogsKinds(s.log, DoWork(s, w, work).log, e, Moved(s.workers[w], work, s.stream[e].sid).1)
  {
  }

  lemma OwnKinds(s: State, w: WorkerId, work: WorkStep, e: nat)
    requires Grounded(s, w) && e < |s.stream|
    requires Holding(s.workers[w]) == None || Holding(s.workers[w]) == Some(e)
    ensures Kinds(DoWork(s, w, work).log, e) == Kinds(s.log, e) + Moved(s.workers[w], work, s.stream[e].sid).1
  {
    OwnEvent(s, w, work, e);
    LogsKindsMeans(s.log, DoWork(s, w, work).log, e, Moved(s.workers[w], work, s.stream[e].sid).1);
  }

  // ---- any interleaving ----

  lemma {:induction false} AloneMore(pc: WorkerPc, own: seq<WorkStep>, more: seq<WorkStep>, sid: string)
    ensures var (mid, kinds) := Alone(pc, own, sid); var (end, rest) := Alone(mid, more, sid);
            Alone(pc, own + more, sid) == (end, kinds + rest)
  {
    if |more| == 0 {
      assert own + more == own;
      assert Alone(pc, own, sid).1 + [] == Alone(pc, own, sid).1;
    } else {
      var n := |more| - 1;
      AloneMore(pc, own, more[..n], sid);
      assert (own + more)[..|own + more| - 1] == own + more[..n];
      var (mid, kinds) := Alone(pc, own, sid);
      var (before, some) := Alone(mid, more[..n], sid);
      assert kinds + some + Moved(before, more[n], sid).1 == kinds + (some + Moved(before, more[n], sid).1);
    }
  }

  ghost predicate AllForeign(others: nat -> seq<Step>, w: WorkerId)
  {
    forall i, j :: 0 <= j < |others(i)| ==> Foreign(others(i)[j], w)
  }

  /** What a worker does about its entry is what it would do by itself, whoever interferes. */
  lemma {:induction false} Interleaved(steps: seq<Step>, w: WorkerId, own: seq<WorkStep>, others: nat -> seq<Step>,
                                       e: nat, pc: WorkerPc, sid: string, kinds: seq<Kind>)
    requires Reached(Run(steps), w, e, pc, sid, kinds) && !pc.Booting?
    requires AllForeign(others, w) && Read !in own
    ensures var (pc', more) := Alone(pc, own, sid);
            Reached(Run(Weave(steps, w, own, others)), w, e, pc', sid, kinds + more) && !pc'.Booting?
  {
    if |own| == 0 {
      assert kinds + [] == kinds;
      ForeignSteps(steps, others(0), w, e, pc, sid, kinds);
    } else {
      var n := |own| - 1;
      Interleaved(steps, w, own[..n], others, e, pc, sid, kinds);
      var (mid, some) := Alone(pc, own[..n], sid);
      OneStepOn(Weave(steps, w, own[..n], others), w, e, mid, sid, kinds + some, own[n], others(n + 1));
      assert kinds + some + Moved(mid, own[n], sid).1 == kinds + (some + Moved(mid, own[n], sid).1);
    }
  }

  lemma OneStepOn(steps: seq<Step>, w: WorkerId, e: nat, pc: WorkerPc, sid: string, kinds: seq<Kind>,
                  work: WorkStep, after: seq<Step>)
    requires Reached(Run(steps), w, e, pc, sid, kinds) && !pc.Booting? && !work.Read?
    requires forall j :: 0 <= j < |after| ==> Foreign(after[j], w)
    ensures var (pc', more) := Moved(pc, work, sid);
            Reached(Run(steps + [Work(w, work)] + after), w, e, pc', sid, kinds + more) && !pc'.Booting?
  {
    QueueAlwaysSafe(steps);
    OwnStep(Run(steps), w, e, pc, sid, kinds, work);
    RunOneMore(steps, Work(w, work));
    var (pc', more) := Moved(pc, work, sid);
    ForeignSteps(steps + [Work(w, work)], after, w, e, pc', sid, kinds + more);
  }

  // ---- the loop's steps ----

  function Tools(m: nat): seq<Kind>
  {
    seq(m, i => Tool)
  }

  /** A tool call that asks for `asked(i)` effects; how many it has before it returns is others' affair. */
  function ToolSteps(m: nat, asked: nat -> nat): seq<WorkStep>
  {
    if m == 0 then [] else ToolSteps(m - 1, asked) + [Call(asked(m - 1)), Return]
  }

  /** Publishing and acknowledging; if Redis fails after `n` commands the program ends there. */
  function Tail(sid: string, n: nat): seq<WorkStep>
  {
    var all := [PublishReply(true), PublishChange(true), Ack];
    var k := if sid == "" then n + 1 else n;
    if k >= 3 then all else all[..k] + [Crash]
  }

  /** All that a worker does for an entry it has read. */
  function Script(m: nat, reply: string, sid: string, n: nat, asked: nat -> nat): seq<WorkStep>
  {
    [Begin] + ToolSteps(m, asked) + [EndTurn(reply)] + Tail(sid, n)
  }

  function CommandKinds(sid: string, reply: string): seq<Kind>
  {
    (if sid == "" then [] else [Reply(reply)]) + [Change, Acknowledged]
  }

  lemma AloneOne(pc: WorkerPc, work: WorkStep, sid: string)
    ensures Alone(pc, [work], sid) == Moved(pc, work, sid)
  {
    assert [work][..0] == [];
    assert [] + Moved(pc, work, sid).1 == Moved(pc, work, sid).1;
  }

  lemma {:induction false} AloneTools(e: nat, m: nat, asked: nat -> nat, sid: string)
    ensures Alone(InTurn(e), ToolSteps(m, asked), sid) == (InTurn(e), Tools(m))
    ensures Read !in ToolSteps(m, asked)
  {
    if m > 0 {
      var n := asked(m - 1);
      AloneTools(e, m - 1, asked, sid);
      AloneMore(InTurn(e), [Call(n)], [Return], sid);
      AloneOne(InTurn(e), Call(n), sid);
      AloneOne(Calling(e, n), Return, sid);
      assert [Call(n)] + [Return] == [Call(n), Return] && [Tool] + [] == [Tool];
      AloneMore(InTurn(e), ToolSteps(m - 1, asked), [Call(n), Return], sid);
      assert Tools(m - 1) + [Tool] == Tools(m);
    } else {
      assert Tools(m) == [];
    }
  }

  lemma AloneCrash(pc: WorkerPc, own: seq<WorkStep>, sid: string)
    ensures Alone(pc, own + [Crash], sid) == (Crashed, Alone(pc, own, sid).1)
  {
    AloneMore(pc, own, [Crash], sid);
    AloneOne(Alone(pc, own, sid).0, Crash, sid);
    assert Alone(pc, own, sid).1 + [] == Alone(pc, own, sid).1;
  }

  /** The three last steps, one by one. */
  lemma AloneEnd(e: nat, reply: string, sid: string)
    ensures var pc, r := TurnDone(e, reply), if sid == "" then [] else [Reply(reply)];
            && Alone(pc, [], sid) == (pc, [])
            && Alone(pc, [PublishReply(true)], sid) == (ReplyOut(e), r)
            && Alone(pc, [PublishReply(true), PublishChange(true)], sid) == (ChangeOut(e), r + [Change])
            && Alone(pc, [PublishReply(true), PublishChange(true), Ack], sid) == (Reading, r + [Change, Acknowledged])
  {
    var pc, r := TurnDone(e, reply), if sid == "" then [] else [Reply(reply)];
    AloneOne(pc, PublishReply(true), sid);
    AloneOne(ReplyOut(e), PublishChange(true), sid);
    AloneOne(ChangeOut(e), Ack, sid);
    AloneMore(pc, [PublishReply(true)], [PublishChange(true)], sid);
    assert [PublishReply(true)] + [PublishChange(true)] == [PublishReply(true), PublishChange(true)];
    AloneMore(pc, [PublishReply(true), PublishChange(true)], [Ack], sid);
    assert [PublishReply(true), PublishChange(true)] + [Ack] == [PublishReply(true), PublishChange(true), Ack];
    assert r + [Change] + [Acknowledged] == r + [Change, Acknowledged];
  }

  lemma AloneTail(e: nat, reply: string, sid: string, n: nat)
    ensures var kinds := CommandKinds(sid, reply);
            Alone(TurnDone(e, reply), Tail(sid, n), sid) ==
            (if |kinds| <= n then Reading else Crashed, Prefix(kinds, n))
    ensures Read !in Tail(sid, n)
  {
    var pc := TurnDone(e, reply);
    var all := [PublishReply(true), PublishChange(true), Ack];
    var k := if sid == "" then n + 1 else n;
    AloneEnd(e, reply, sid);
    assert all[..0] == [] && all[..1] == [PublishReply(true)] && all[..2] == [PublishReply(true), PublishChange(true)];
    assert Prefix(CommandKinds(sid, reply), n) == Alone(pc, if k >= 3 then all else all[..k], sid).1;
    if k < 3 {
      AloneCrash(pc, all[..k], sid);
    }
  }

  lemma AloneScript(e: nat, m: nat, reply: string, sid: string, n: nat, asked: nat -> nat)
    ensures var kinds := CommandKinds(sid, reply);
            Alone(WorkerPc.Delivered(e), Script(m, reply, sid, n, asked), sid) ==
            (if |kinds| <= n then Reading else Crashed, Tools(m) + Prefix(kinds, n))
    ensures Read !in Script(m, reply, sid, n, asked)
  {
    var pc, tools, tail := WorkerPc.Delivered(e), ToolSteps(m, asked), Tail(sid, n);
    AloneOne(pc, Begin, sid);
    AloneTools(e, m, asked, sid);
    AloneMore(pc, [Begin], tools, sid);
    AloneOne(InTurn(e), EndTurn(reply), sid);
    AloneMore(pc, [Begin] + tools, [EndTurn(reply)], sid);
    AloneTail(e, reply, sid, n);
    AloneMore(pc, [Begin] + tools + [EndTurn(reply)], tail, sid);
    assert [] + Tools(m) + [] == Tools(m);
  }

  // ---- the two are the same ----

  /** In kinds, the effects of a pass. */
  lemma PassKinds(calls: seq<AgentTurn.ToolCall>, d: Delivery, reply: string, n: nat)
    ensures EffectKinds(AsEffects(calls) + Prefix(Commands(d, reply), n)) ==
            Tools(|calls|) + Prefix(CommandKinds(Field(d.fields, "session_id"), reply), n)
  {
    var sid := Field(d.fields, "session_id");
    assert ("chat:" + sid)[0] == 'c' && "todos:changed"[0] == 't';
    assert EffectKinds(Commands(d, reply)) == CommandKinds(sid, reply);
  }

  /** The worker has gone through its steps and this is all that was done about the entry. */
  ghost predicate EndsWith(s: State, w: WorkerId, e: nat, pc: WorkerPc, kinds: seq<Kind>)
  {
    w in s.workers && s.workers[w] == pc && Kinds(s.log, e) == kinds
  }

  /** Whatever the others do before, between and after the worker's own steps. */
  ghost predicate AlwaysEndsWith(steps: seq<Step>, w: WorkerId, own: seq<WorkStep>, e: nat, pc: WorkerPc,
                                 kinds: seq<Kind>)
  {
    forall others :: AllForeign(others, w) ==> EndsWith(Run(Weave(steps, w, own, others)), w, e, pc, kinds)
  }

  lemma UntouchedKinds(steps: seq<Step>, w: WorkerId, e: nat)
    requires NotBegun(Run(steps), w, e)
    ensures var s := Run(steps);
            e < |s.stream| && Reached(s, w, e, WorkerPc.Delivered(e), s.stream[e].sid, [])
  {
    var s := Run(steps);
    QueueAlwaysSafe(steps);
    assert AtStage(s.stream, s.log, s.workers[w]);
    UntouchedMeansNoEvents(s.log, e, s.stream[e].sid);
    assert NothingMoreAbout(e, [], s.log);
    KindsSame([], s.log, e);
    forall v | v != w ensures !HeldBy(s, v, e) {
    }
  }

  /**
   Whatever effects main's loop has for an entry, the protocol's worker that has read it has steps
   which do just that about the entry, in that order, whatever the steps of everybody else in
   between, and however many effects on the data each call asks for.
   */
  lemma LoopIsProtocol(steps: seq<Step>, w: WorkerId, e: nat, d: Delivery, world: World, effects: seq<Effect>,
                       asked: nat -> nat)
    requires NotBegun(Run(steps), w, e) && Settles(effects, d, world)
    requires e < |Run(steps).stream| && Run(steps).stream[e].sid == Field(d.fields, "session_id")
    ensures exists m, reply ::
              AlwaysEndsWith(steps, w, Script(m, reply, Field(d.fields, "session_id"), world.redis, asked), e,
                             if Completes(d, world) then Reading else Crashed, EffectKinds(effects))
  {
    var sid := Field(d.fields, "session_id");
    var calls, reply :| TurnGives(calls, reply, world)
                     && effects == AsEffects(calls) + Prefix(Commands(d, reply), world.redis);
    var own := Script(|calls|, reply, sid, world.redis, asked);
    UntouchedKinds(steps, w, e);
    AloneScript(e, |calls|, reply, sid, world.redis, asked);
    PassKinds(calls, d, reply, world.redis);
    forall others | AllForeign(others, w)
      ensures EndsWith(Run(Weave(steps, w, own, others)), w, e,
                       if Completes(d, world) then Reading else Crashed, EffectKinds(effects))
    {
      Interleaved(steps, w, own, others, e, WorkerPc.Delivered(e), sid, []);
      assert [] + EffectKinds(effects) == EffectKinds(effects);
    }
    assert AlwaysEndsWith(steps, w, Script(|calls|, reply, sid, world.redis, asked), e,
                          if Completes(d, world) then Reading else Crashed, EffectKinds(effects));
  }

  /** Tool calls, and as many of the commands as the stage says. */
  ghost predicate KindsFit(kinds: seq<Kind>, stage: Stage, sid: string, m: nat, reply: string)
  {
    var commands := CommandKinds(sid, reply);
    match stage
    case Untouched => kinds == []
    case Turning => kinds == Tools(m)
    case Answered => kinds == Tools(m) + [Reply(reply)] && sid != ""
    case Announced => kinds == Tools(m) + commands[..|commands| - 1]
    case Done => kinds == Tools(m) + commands
    case Wrong => false
  }

  lemma {:induction false} KindsByStage(log: seq<Event>, e: nat, sid: string) returns (m: nat, reply: string)
    requires StageOf(log, e, sid) != Wrong
    ensures KindsFit(Kinds(log, e), StageOf(log, e, sid), sid, m, reply)
  {
    m, reply := 0, "";
    if |log| > 0 {
      var n := |log| - 1;
      RightSoFar(log, n, e, sid);
      m, reply := KindsByStage(log[..n], e, sid);
      if log[n].entry == e {
        var before, after := StageOf(log[..n], e, sid), StageOf(log, e, sid);
        if log[n].Started? {
          m := 0;
        } else if log[n].Called? {
          assert Tools(m) + [Tool] == Tools(m + 1);
          m := m + 1;
        } else if log[n].ReplyPublished? {
          reply := log[n].text;
        }
        KindsAdvance(Kinds(log[..n], e), before, log[n], sid, m, reply);
      }
    }
  }

  lemma KindsAdvance(kinds: seq<Kind>, before: Stage, ev: Event, sid: string, m: nat, reply: string)
    requires Advance(before, ev, sid) != Wrong
    requires match ev
             case Started(_, _) => kinds == [] && m == 0
             case Called(_, _) => kinds + [Tool] == Tools(m)
             case ReplyPublished(_, text) => kinds == Tools(m) && text == reply
             case _ => KindsFit(kinds, before, sid, m, reply)
    ensures KindsFit(kinds + EventKinds(ev), Advance(before, ev, sid), sid, m, reply)
  {
    var commands := CommandKinds(sid, reply);
    assert kinds + [] == kinds;
    assert commands[..|commands| - 1] == (if sid == "" then [] else [Reply(reply)]) + [Change];
    assert commands == commands[..|commands| - 1] + [Acknowledged];
  }

  /** The first kinds of what the loop would do with some number of tool calls and some reply. */
  ghost predicate LoopLike(kinds: seq<Kind>, sid: string, m: nat, reply: string, n: nat)
  {
    n <= |CommandKinds(sid, reply)| && kinds == Tools(m) + CommandKinds(sid, reply)[..n]
  }

  /**
   What any run has done about an entry is what the loop would do for it, tool calls first and then
   as many of its commands as it came to; all of them if and only if the entry is acknowledged.
   */
  lemma ProtocolIsLoop(steps: seq<Step>, e: nat)
    requires e < |Run(steps).stream|
    ensures var s := Run(steps);
            exists m, reply, n :: LoopLike(Kinds(s.log, e), s.stream[e].sid, m, reply, n)
              && (e in AckedSet(s.group) <==> n == |CommandKinds(s.stream[e].sid, reply)|)
  {
    var s := Run(steps);
    var sid := s.stream[e].sid;
    QueueAlwaysSafe(steps);
    assert InOrder(s.stream, AckedSet(s.group), s.log, e);
    var m, reply := KindsByStage(s.log, e, sid);
    var commands := CommandKinds(sid, reply);
    var n := match StageOf(s.log, e, sid)
             case Answered => 1
             case Announced => |commands| - 1
             case Done => |commands|
             case _ => 0;
    if StageOf(s.log, e, sid).Untouched? {
      m := 0;
    }
    assert Tools(m) + [] == Tools(m);
    assert LoopLike(Kinds(s.log, e), sid, m, reply, n);
  }
}
