/**
 What every run keeps on the queue side: the consumer group partitions the stream, an entry's turn is
 started once and goes through its stages in order, and what is announced, covered, lost and when.
 */
module QueueSafety {
  import opened Protocol
  import opened Wrappers

  function Last(g: Option<Group>): nat
  {
    if g.None? then 0 else g.value.last
  }

  function Pending(g: Option<Group>): set<nat>
  {
    if g.None? then {} else g.value.pending
  }

  function AckedSet(g: Option<Group>): set<nat>
  {
    if g.None? then {} else g.value.acked
  }

  /** The entry a worker has in its hands. */
  function Holding(pc: WorkerPc): Option<nat>
  {
    match pc
    case Delivered(e) => Some(e)
    case InTurn(e) => Some(e)
    case Calling(e, _) => Some(e)
    case TurnDone(e, _) => Some(e)
    case ReplyOut(e) => Some(e)
    case ChangeOut(e) => Some(e)
    case _ => None
  }

  // ---- events about one entry ----

  predicate StartAt(log: seq<Event>, i: int, e: int)
  {
    0 <= i < |log| && log[i].Started? && log[i].entry == e
  }

  predicate ToolAt(log: seq<Event>, i: int, e: int)
  {
    0 <= i < |log| && log[i].ToolRan? && log[i].entry == e
  }

  predicate ReplyAt(log: seq<Event>, i: int, e: int)
  {
    0 <= i < |log| && log[i].ReplyPublished? && log[i].entry == e
  }

  predicate ChangeAt(log: seq<Event>, i: int, e: int)
  {
    0 <= i < |log| && log[i].ChangePublished? && log[i].entry == e
  }

  predicate AckAt(log: seq<Event>, i: int, e: int)
  {
    0 <= i < |log| && log[i].Acked? && log[i].entry == e
  }

  ghost predicate HasStart(log: seq<Event>, e: int)
  {
    exists i :: StartAt(log, i, e)
  }

  ghost predicate Replied(log: seq<Event>, e: int)
  {
    exists i :: ReplyAt(log, i, e)
  }

  predicate WasCut(log: seq<Event>, e: nat)
  {
    CutShort(e) in log
  }

  // ---- the stages of a turn ----

  /** How far an entry has come; Wrong when an event came out of turn. */
  datatype Stage = Untouched | Turning | Answered | Announced | Done | Wrong

  /** A reply is due exactly if the entry names a session. Effects may land as long as they please. */
  function Advance(stage: Stage, ev: Event, sid: string): Stage
  {
    match ev
    case Started(_, _) => if stage.Untouched? then Turning else Wrong
    case Called(_, _) => if stage.Turning? then Turning else Wrong
    case CutShort(_) => if stage.Turning? then Turning else Wrong
    case ToolRan(_, _) => if stage.Untouched? then Wrong else stage
    case ReplyPublished(_, _) => if stage.Turning? && sid != "" then Answered else Wrong
    case ChangePublished(_, _) => if stage == (if sid == "" then Turning else Answered) then Announced else Wrong
    case Acked(_) => if stage.Announced? then Done else Wrong
  }

  function StageOf(log: seq<Event>, e: nat, sid: string): Stage
  {
    if |log| == 0 then Untouched
    else
      var before, ev := StageOf(log[..|log| - 1], e, sid), log[|log| - 1];
      if ev.entry == e then Advance(before, ev, sid) else before
  }

  lemma StageAppend(log: seq<Event>, ev: Event, e: nat, sid: string)
    ensures StageOf(log + [ev], e, sid) ==
            if ev.entry == e then Advance(StageOf(log, e, sid), ev, sid) else StageOf(log, e, sid)
  {
    assert (log + [ev])[..|log|] == log;
  }

  /** What went wrong stays wrong. */
  lemma {:induction false} RightSoFar(log: seq<Event>, k: nat, e: nat, sid: string)
    requires k <= |log| && StageOf(log, e, sid) != Wrong
    ensures StageOf(log[..k], e, sid) != Wrong
  {
    if k < |log| {
      RightSoFar(log[..|log| - 1], k, e, sid);
      assert log[..|log| - 1][..k] == log[..k];
    } else {
      assert log[..k] == log;
    }
  }

  /** An entry without events is untouched, and the other way round. */
  lemma {:induction false} UntouchedMeansNoEvents(log: seq<Event>, e: nat, sid: string)
    requires StageOf(log, e, sid) != Wrong
    ensures StageOf(log, e, sid) == Untouched <==> forall i :: 0 <= i < |log| ==> log[i].entry != e
  {
    if |log| > 0 {
      var n := |log| - 1;
      RightSoFar(log, n, e, sid);
      UntouchedMeansNoEvents(log[..n], e, sid);
      assert forall i :: 0 <= i < n ==> log[..n][i] == log[i];
    }
  }

  lemma {:induction false} NoEventsUntouched(log: seq<Event>, e: nat, sid: string)
    requires forall i :: 0 <= i < |log| ==> log[i].entry != e
    ensures StageOf(log, e, sid) == Untouched
  {
    if |log| > 0 {
      NoEventsUntouched(log[..|log| - 1], e, sid);
    }
  }

  /** Stepping over event `k`. */
  lemma StageAt(log: seq<Event>, k: nat, e: nat, sid: string)
    requires k < |log| && log[k].entry == e && StageOf(log, e, sid) != Wrong
    ensures StageOf(log[..k + 1], e, sid) == Advance(StageOf(log[..k], e, sid), log[k], sid) != Wrong
  {
    RightSoFar(log, k + 1, e, sid);
    assert log[..k + 1][..k] == log[..k];
  }

  /** The number of a stage; it never goes down. */
  function Rank(stage: Stage): nat
  {
    match stage
    case Untouched => 0
    case Turning => 1
    case Answered => 2
    case Announced => 3
    case Done => 4
    case Wrong => 5
  }

  lemma {:induction false} RankGrows(log: seq<Event>, k: nat, e: nat, sid: string)
    requires k <= |log|
    ensures Rank(StageOf(log[..k], e, sid)) <= Rank(StageOf(log, e, sid))
  {
    if k < |log| {
      RankGrows(log[..|log| - 1], k, e, sid);
      assert log[..|log| - 1][..k] == log[..k];
    } else {
      assert log[..k] == log;
    }
  }

  lemma RankBetween(log: seq<Event>, i: nat, j: nat, e: nat, sid: string)
    requires i <= j <= |log|
    ensures Rank(StageOf(log[..i], e, sid)) <= Rank(StageOf(log[..j], e, sid))
  {
    RankGrows(log[..j], i, e, sid);
    assert log[..j][..i] == log[..i];
  }

  /** An event that moves the stage on happens at most once. */
  lemma MovesOnce(log: seq<Event>, i: nat, j: nat, e: nat, sid: string)
    requires i < |log| && j < |log| && log[i].entry == e == log[j].entry && StageOf(log, e, sid) != Wrong
    requires (log[i].Started? && log[j].Started?) || (log[i].ReplyPublished? && log[j].ReplyPublished?)
          || (log[i].ChangePublished? && log[j].ChangePublished?) || (log[i].Acked? && log[j].Acked?)
    ensures i == j
  {
    StageAt(log, i, e, sid);
    StageAt(log, j, e, sid);
    if i < j {
      RankBetween(log, i + 1, j, e, sid);
    } else if j < i {
      RankBetween(log, j + 1, i, e, sid);
    }
  }

  /** What has happened by the stage an entry has reached. */
  lemma {:induction false} StageTells(log: seq<Event>, e: nat, sid: string)
    requires StageOf(log, e, sid) != Wrong
    ensures var r := Rank(StageOf(log, e, sid));
            && (HasStart(log, e) <==> r >= 1)
            && (Replied(log, e) <==> sid != "" && r >= 2)
            && ((exists i :: ChangeAt(log, i, e)) <==> r >= 3)
            && ((exists i :: AckAt(log, i, e)) <==> r >= 4)
  {
    if |log| > 0 {
      var n := |log| - 1;
      RightSoFar(log, n, e, sid);
      StageTells(log[..n], e, sid);
      EventsOfPrefix(log, e);
    }
  }

  lemma EventsOfPrefix(log: seq<Event>, e: nat)
    requires |log| > 0
    ensures var n, ev := |log| - 1, log[|log| - 1];
            && (HasStart(log, e) <==> HasStart(log[..n], e) || (ev.Started? && ev.entry == e))
            && (Replied(log, e) <==> Replied(log[..n], e) || (ev.ReplyPublished? && ev.entry == e))
            && ((exists i :: ChangeAt(log, i, e)) <==>
                (exists i :: ChangeAt(log[..n], i, e)) || (ev.ChangePublished? && ev.entry == e))
            && ((exists i :: AckAt(log, i, e)) <==>
                (exists i :: AckAt(log[..n], i, e)) || (ev.Acked? && ev.entry == e))
  {
    var n := |log| - 1;
    assert log[n].Started? && log[n].entry == e ==> StartAt(log, n, e);
    assert log[n].ReplyPublished? && log[n].entry == e ==> ReplyAt(log, n, e);
    assert log[n].ChangePublished? && log[n].entry == e ==> ChangeAt(log, n, e);
    assert log[n].Acked? && log[n].entry == e ==> AckAt(log, n, e);
    assert forall i :: StartAt(log, i, e) <==> StartAt(log[..n], i, e) || (i == n && StartAt(log, n, e));
    assert forall i :: ReplyAt(log, i, e) <==> ReplyAt(log[..n], i, e) || (i == n && ReplyAt(log, n, e));
    assert forall i :: ChangeAt(log, i, e) <==> ChangeAt(log[..n], i, e) || (i == n && ChangeAt(log, n, e));
    assert forall i :: AckAt(log, i, e) <==> AckAt(log[..n], i, e) || (i == n && AckAt(log, n, e));
  }

  // ---- the invariants ----

  /** Undelivered, pending and acknowledged entries partition the stream; delivered ones are a prefix. */
  ghost predicate Partition(stream: seq<Entry>, g: Option<Group>)
  {
    && Last(g) <= |stream|
    && Pending(g) !! AckedSet(g)
    && forall e: nat :: e in Pending(g) || e in AckedSet(g) <==> e < Last(g)
  }

  /** Workers hold pending entries, each its own. */
  ghost predicate Owned(g: Option<Group>, workers: map<WorkerId, WorkerPc>)
  {
    && (forall w :: w in workers && Holding(workers[w]).Some? ==> Holding(workers[w]).value in Pending(g))
    && (forall v, w :: v in workers && w in workers && v != w && Holding(workers[v]).Some? ==>
                         Holding(workers[v]) != Holding(workers[w]))
  }

  /** The log speaks of delivered entries only, and abandoned calls are on record. */
  ghost predicate Recorded(last: nat, log: seq<Event>, inflight: multiset<nat>)
  {
    && (forall i :: 0 <= i < |log| ==> log[i].entry < last)
    && (forall e :: e in inflight ==> WasCut(log, e))
  }

  /** Every effect raises the version; an announcement covers just what came before it. */
  ghost predicate Timed(log: seq<Event>, version: nat)
  {
    && (forall i :: 0 <= i < |log| && log[i].ToolRan? ==> log[i].version <= version)
    && (forall i :: 0 <= i < |log| && log[i].ChangePublished? ==> log[i].asOf <= version)
    && (forall i, j :: 0 <= i < |log| && 0 <= j < |log| && log[i].ToolRan? && log[j].ChangePublished? ==>
                         (log[i].version <= log[j].asOf <==> i < j))
  }

  /** The stage of an entry whose worker is there. */
  function StageFor(pc: WorkerPc, sid: string): Stage
  {
    match pc
    case Delivered(_) => Untouched
    case ReplyOut(_) => if sid == "" then Turning else Answered
    case ChangeOut(_) => Announced
    case _ => Turning
  }

  ghost predicate AtStage(stream: seq<Entry>, log: seq<Event>, pc: WorkerPc)
  {
    Holding(pc).Some? ==>
      var e := Holding(pc).value;
      e < |stream| && StageOf(log, e, stream[e].sid) == StageFor(pc, stream[e].sid)
  }

  ghost predicate InOrder(stream: seq<Entry>, acked: set<nat>, log: seq<Event>, e: nat)
    requires e < |stream|
  {
    && StageOf(log, e, stream[e].sid) != Wrong
    && (e in acked <==> StageOf(log, e, stream[e].sid) == Done)
  }

  ghost predicate Staged(stream: seq<Entry>, g: Option<Group>, workers: map<WorkerId, WorkerPc>, log: seq<Event>)
  {
    && (forall e: nat :: e < |stream| ==> InOrder(stream, AckedSet(g), log, e))
    && (forall w :: w in workers ==> AtStage(stream, log, workers[w]))
  }

  ghost predicate QueueSafe(s: State)
  {
    && Partition(s.stream, s.group)
    && Owned(s.group, s.workers)
    && Recorded(Last(s.group), s.log, s.inflight)
    && Timed(s.log, s.version)
    && Staged(s.stream, s.group, s.workers, s.log)
  }

  // ---- preservation ----

  /** New entries and later versions disturb nothing. */
  lemma QueueGrows(s: State, s': State)
    requires QueueSafe(s)
    requires s.stream <= s'.stream && s.version <= s'.version
    requires s'.group == s.group && s'.workers == s.workers && s'.log == s.log && s'.inflight == s.inflight
    ensures QueueSafe(s')
  {
    forall e: nat | e < |s'.stream| ensures InOrder(s'.stream, AckedSet(s.group), s.log, e) {
      if e < |s.stream| {
        assert InOrder(s.stream, AckedSet(s.group), s.log, e) && s'.stream[e] == s.stream[e];
      } else {
        NoEventsUntouched(s.log, e, s'.stream[e].sid);
      }
    }
  }

  /** An event about `e` moves on no other entry. */
  lemma OthersStay(stream: seq<Entry>, log: seq<Event>, ev: Event)
    ensures forall f: nat :: f < |stream| && f != ev.entry ==>
              StageOf(log + [ev], f, stream[f].sid) == StageOf(log, f, stream[f].sid)
  {
    forall f: nat | f < |stream| && f != ev.entry
      ensures StageOf(log + [ev], f, stream[f].sid) == StageOf(log, f, stream[f].sid)
    {
      StageAppend(log, ev, f, stream[f].sid);
    }
  }

  lemma StagedLogs(stream: seq<Entry>, g: Option<Group>, g': Option<Group>, workers: map<WorkerId, WorkerPc>,
                   log: seq<Event>, w: WorkerId, pc: WorkerPc, ev: Event)
    requires Staged(stream, g, workers, log) && Owned(g, workers)
    requires w in workers && Holding(workers[w]) == Some(ev.entry) && ev.entry < |stream|
    requires Holding(pc) == None || Holding(pc) == Some(ev.entry)
    requires var sid := stream[ev.entry].sid; var st := Advance(StageFor(workers[w], sid), ev, sid);
             && st != Wrong && (Holding(pc).Some? ==> st == StageFor(pc, sid))
             && (ev.entry in AckedSet(g') <==> st == Done)
    requires forall e :: e != ev.entry ==> (e in AckedSet(g') <==> e in AckedSet(g))
    ensures Staged(stream, g', workers[w := pc], log + [ev])
  {
    var e := ev.entry;
    assert AtStage(stream, log, workers[w]);
    StageAppend(log, ev, e, stream[e].sid);
    OthersStay(stream, log, ev);
    forall f: nat | f < |stream| ensures InOrder(stream, AckedSet(g'), log + [ev], f) {
      assert InOrder(stream, AckedSet(g), log, f);
    }
    forall v | v in workers && v != w ensures AtStage(stream, log + [ev], workers[v]) {
      assert AtStage(stream, log, workers[v]);
    }
  }

  lemma TimedLogs(log: seq<Event>, version: nat, ev: Event, version': nat)
    requires Timed(log, version) && version <= version'
    requires ev.ToolRan? ==> version < ev.version <= version'
    requires ev.ChangePublished? ==> version <= ev.asOf <= version'
    ensures Timed(log + [ev], version')
  {
  }

  /** A step of worker `w` about the entry it holds, which writes `ev` to the log. */
  lemma QueueLogs(s: State, s': State, w: WorkerId, pc: WorkerPc, ev: Event)
    requires QueueSafe(s) && w in s.workers && Holding(s.workers[w]) == Some(ev.entry)
    requires s'.stream == s.stream && s'.workers == s.workers[w := pc] && s'.log == s.log + [ev]
    requires s'.group == s.group && s.version <= s'.version
    requires Holding(pc) == None || Holding(pc) == Some(ev.entry)
    requires ev.entry < |s.stream| ==>
             var sid := s.stream[ev.entry].sid; var st := Advance(StageFor(s.workers[w], sid), ev, sid);
             st != Wrong && st != Done && (Holding(pc).Some? ==> st == StageFor(pc, sid))
    requires ev.ToolRan? ==> s.version < ev.version <= s'.version
    requires ev.ChangePublished? ==> s.version <= ev.asOf <= s'.version
    requires forall e :: e in s'.inflight ==> e in s.inflight || ev == CutShort(e)
    ensures QueueSafe(s')
  {
    var e := ev.entry;
    assert e in Pending(s.group);
    assert e !in AckedSet(s.group);
    StagedLogs(s.stream, s.group, s.group, s.workers, s.log, w, pc, ev);
    TimedLogs(s.log, s.version, ev, s'.version);
  }

  /** A step of worker `w` that writes nothing to the log. */
  lemma QueueSilent(s: State, s': State, w: WorkerId, pc: WorkerPc)
    requires QueueSafe(s)
    requires s' == s.(workers := s.workers[w := pc])
    requires Holding(pc) == None || (w in s.workers && Holding(pc) == Holding(s.workers[w]))
    requires Holding(pc).Some? ==> forall sid :: StageFor(pc, sid) == StageFor(s.workers[w], sid)
    ensures QueueSafe(s')
  {
  }

  lemma QueueGroupCreated(s: State)
    requires QueueSafe(s)
    ensures QueueSafe(s.(group := GroupCreated(s.group)))
  {
  }

  lemma QueueRead(s: State, w: WorkerId)
    requires QueueSafe(s)
    ensures QueueSafe(DoWork(s, w, Read))
  {
    var s' := DoWork(s, w, Read);
    if s' != s {
      var e := Last(s.group);
      NoEventsUntouched(s.log, e, s.stream[e].sid);
      assert AckedSet(s'.group) == AckedSet(s.group);
    }
  }

  lemma QueueAck(s: State, w: WorkerId)
    requires QueueSafe(s)
    ensures QueueSafe(DoWork(s, w, Ack))
  {
    var s' := DoWork(s, w, Ack);
    if s' != s {
      var ev := Acked(s.workers[w].entry);
      StagedLogs(s.stream, s.group, s'.group, s.workers, s.log, w, Reading, ev);
      TimedLogs(s.log, s.version, ev, s.version);
    }
  }

  lemma QueueAbandon(s: State, w: WorkerId, pc: WorkerPc)
    requires QueueSafe(s) && w in s.workers && s.workers[w].Calling?
    requires pc == InTurn(s.workers[w].entry) || pc == Crashed
    ensures QueueSafe(Abandon(WithPc(s, w, pc), s.workers[w].entry, s.workers[w].left))
  {
    var s' := Abandon(WithPc(s, w, pc), s.workers[w].entry, s.workers[w].left);
    if s.workers[w].left == 0 {
      QueueSilent(s, s', w, pc);
    } else {
      QueueLogs(s, s', w, pc, CutShort(s.workers[w].entry));
    }
  }

  lemma QueueTurn(s: State, w: WorkerId, step: WorkStep)
    requires QueueSafe(s) && w in s.workers
    requires step.Begin? || step.Call? || step.TakeEffect? || step.PublishReply? || step.PublishChange?
    ensures QueueSafe(DoWork(s, w, step))
  {
    var s' := DoWork(s, w, step);
    if s' != s {
      assert AtStage(s.stream, s.log, s.workers[w]);
      var e, pc' := s.workers[w].entry, s'.workers[w];
      if step.PublishReply? && s.stream[e].sid == "" {
        QueueAnswerless(s, s', w, e);
      } else {
        QueueLogs(s, s', w, pc', s'.log[|s.log|]);
      }
    }
  }

  /** No reply is due to an entry without a session. */
  lemma QueueAnswerless(s: State, s': State, w: WorkerId, e: nat)
    requires QueueSafe(s) && w in s.workers && s.workers[w].TurnDone? && s.workers[w].entry == e
    requires e < |s.stream| && s.stream[e].sid == "" && s' == WithPc(s, w, ReplyOut(e))
    ensures QueueSafe(s')
  {
    assert AtStage(s.stream, s.log, s.workers[w]);
  }

  lemma QueueWork(s: State, w: WorkerId, step: WorkStep)
    requires QueueSafe(s)
    ensures QueueSafe(DoWork(s, w, step))
  {
    var s' := DoWork(s, w, step);
    if s' != s {
      match step
      case Read => QueueRead(s, w);
      case Ack => QueueAck(s, w);
      case EnsureGroup =>
        QueueGroupCreated(s);
        QueueSilent(s.(group := GroupCreated(s.group)), s', w, Reading);
      case Spawn => QueueSilent(s, s', w, Booting);
      case EndTurn(reply) => QueueSilent(s, s', w, s'.workers[w]);
      case Return => QueueAbandon(s, w, InTurn(s.workers[w].entry));
      case Crash =>
        if s.workers[w].Calling? {
          QueueAbandon(s, w, Crashed);
        } else {
          QueueSilent(s, s', w, Crashed);
        }
      case _ => QueueTurn(s, w, step);
    }
  }

  /** An effect that lands late leaves every stage as it is. */
  lemma QueueLanded(s: State, e: nat)
    requires QueueSafe(s)
    ensures QueueSafe(Landed(s, e))
  {
    if e in s.inflight {
      var s', ev := Landed(s, e), ToolRan(e, s.version + 1);
      TimedLogs(s.log, s.version, ev, s'.version);
      forall f: nat | f < |s.stream| ensures
          StageOf(s'.log, f, s.stream[f].sid) == StageOf(s.log, f, s.stream[f].sid)
      {
        assert InOrder(s.stream, AckedSet(s.group), s.log, f);
        StageAppend(s.log, ev, f, s.stream[f].sid);
        UntouchedMeansNoEvents(s.log, f, s.stream[f].sid);
      }
      forall f: nat | f < |s.stream| ensures InOrder(s.stream, AckedSet(s.group), s'.log, f) {
        assert InOrder(s.stream, AckedSet(s.group), s.log, f);
      }
      forall w | w in s.workers ensures AtStage(s.stream, s'.log, s.workers[w]) {
        assert AtStage(s.stream, s.log, s.workers[w]);
      }
      assert Recorded(Last(s.group), s'.log, s'.inflight) by {
        var i :| 0 <= i < |s.log| && s.log[i] == CutShort(e);
      }
    }
  }

  /** The gateway touches the queue only by adding entries. */
  ghost predicate OnlyQueues(s: State, s': State)
  {
    && s.stream <= s'.stream && s.version == s'.version && s'.inflight == s.inflight
    && s'.group == s.group && s'.workers == s.workers && s'.log == s.log
  }

  lemma TabsOnlyQueue(s: State, c: Conn, step: TabStep)
    ensures OnlyQueues(s, DoBrowse(s, c, step))
  {
  }

  lemma RelayOnlyQueues(s: State, step: SubStep)
    ensures OnlyQueues(s, DoRelay(s, step))
  {
  }

  lemma QueueNext(s: State, step: Step)
    requires QueueSafe(s)
    ensures QueueSafe(Next(s, step))
  {
    match step
    case Work(w, work) => QueueWork(s, w, work);
    case CreateGroup => QueueGroupCreated(s);
    case Inject(_) => QueueGrows(s, Next(s, step));
    case Edit => QueueGrows(s, Next(s, step));
    case Land(e) => QueueLanded(s, e);
    case Browse(c, tab) =>
      TabsOnlyQueue(s, c, tab);
      QueueGrows(s, Next(s, step));
    case Relay(sub) =>
      RelayOnlyQueues(s, sub);
      QueueGrows(s, Next(s, step));
  }

  lemma {:induction false} QueueAlwaysSafe(steps: seq<Step>)
    ensures QueueSafe(Run(steps))
  {
    if |steps| > 0 {
      QueueAlwaysSafe(steps[..|steps| - 1]);
      QueueNext(Run(steps[..|steps| - 1]), steps[|steps| - 1]);
    }
  }

  // ---- what it means ----

  /**
   Undelivered, pending and acknowledged entries partition the stream at every moment of every run;
   what has been delivered is a prefix of it, only delivered entries' turns have started, and each of
   them once, however many workers crash wherever they like.
   */
  lemma EveryTurnStartsAtMostOnce(steps: seq<Step>, e: nat)
    requires e < |Run(steps).stream|
    ensures var s := Run(steps);
            && (e >= Last(s.group) || e in Pending(s.group) || e in AckedSet(s.group))
            && !(e in Pending(s.group) && e in AckedSet(s.group))
            && (e >= Last(s.group) ==> e !in Pending(s.group) && e !in AckedSet(s.group))
            && (HasStart(s.log, e) ==> e < Last(s.group))
            && (e in AckedSet(s.group) ==> HasStart(s.log, e))
            && forall i, j :: StartAt(s.log, i, e) && StartAt(s.log, j, e) ==> i == j
  {
    QueueAlwaysSafe(steps);
    var s := Run(steps);
    assert InOrder(s.stream, AckedSet(s.group), s.log, e);
    StageTells(s.log, e, s.stream[e].sid);
    forall i, j | StartAt(s.log, i, e) && StartAt(s.log, j, e) ensures i == j {
      MovesOnce(s.log, i, j, e, s.stream[e].sid);
    }
  }

  // ---- runs and their continuations ----

  lemma RunOneMore(steps: seq<Step>, step: Step)
    ensures Run(steps + [step]) == Next(Run(steps), step)
  {
    assert (steps + [step])[..|steps|] == steps;
  }

  /** Run(steps + more) is one step on from Run(steps + all but the last of more). */
  lemma RunLonger(steps: seq<Step>, more: seq<Step>)
    ensures |more| == 0 ==> Run(steps + more) == Run(steps)
    ensures |more| > 0 ==> Run(steps + more) == Next(Run(steps + more[..|more| - 1]), more[|more| - 1])
  {
    if |more| == 0 {
      assert steps + more == steps;
    } else {
      assert (steps + more)[..|steps + more| - 1] == steps + more[..|more| - 1];
    }
  }

  /** One more step of a run whose state is known. */
  lemma Extend(steps: seq<Step>, s: State, step: Step) returns (steps': seq<Step>)
    requires Run(steps) == s
    ensures Run(steps') == Next(s, step)
  {
    steps' := steps + [step];
    RunOneMore(steps, step);
  }
}
