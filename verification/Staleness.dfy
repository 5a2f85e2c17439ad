/**
 Which snapshot a tab is left with. "Has been sent" is not "shows": the initial and the refreshing
 snapshots are fetched and written outside the hub's lock, so an older one can arrive last.
 */
module Staleness {
  import opened Freshness
  import opened Protocol
  import opened QueueSafety
  import opened Routing
  import opened Settlement
  import opened Wrappers

  /** The last snapshot among the frames. */
  function LastSnapshot(sent: seq<Frame>): (f: Option<Frame>)
    ensures f.Some? ==> f.value in sent && f.value.TodosFrame?
  {
    if |sent| == 0 then None
    else if sent[|sent| - 1].TodosFrame? then Some(sent[|sent| - 1])
    else LastSnapshot(sent[..|sent| - 1])
  }

  lemma LastSnapshotAppend(sent: seq<Frame>, f: Frame)
    ensures LastSnapshot(sent + [f]) == if f.TodosFrame? then Some(f) else LastSnapshot(sent)
  {
    assert (sent + [f])[..|sent|] == sent;
  }

  // ---- which step wrote it ----

  /** The step writes a snapshot to `c`, and the network lets it through. */
  predicate Writes(s: State, step: Step, c: Conn)
  {
    && c in s.tabs && !s.tabs[c].broken && !s.tabs[c].pc.Closed?
    && match step
       case Browse(d, FirstWrite(ok)) => d == c && ok && s.tabs[c].pc.Fetched?
       case Browse(d, RefreshWrite(ok)) => d == c && ok && s.tabs[c].pc.Refetched?
       case Relay(WriteTo(d, ok)) => d == c && ok && s.sub.Writing? && c in s.sub.left
       case _ => false
  }

  function Written(s: State, step: Step, c: Conn): Frame
    requires Writes(s, step, c)
  {
    if step.Relay? then TodosFrame(s.sub.snap, false) else TodosFrame(s.tabs[c].pc.snap, true)
  }

  /** The last snapshot of a tab, if there is the tab. */
  function Latest(s: State, c: Conn): Option<Frame>
  {
    if c in s.tabs then LastSnapshot(s.tabs[c].sent) else None
  }

  ghost predicate LatestBy(s: State, step: Step, s': State, c: Conn)
  {
    Latest(s', c) == if Writes(s, step, c) then Some(Written(s, step, c)) else Latest(s, c)
  }

  lemma LatestBrowse(s: State, d: Conn, tab: TabStep, c: Conn)
    ensures LatestBy(s, Browse(d, tab), DoBrowse(s, d, tab), c)
  {
    if d == c && c in s.tabs {
      var t := s.tabs[c];
      match tab
      case FirstWrite(ok) =>
        if t.pc.Fetched? {
          LastSnapshotAppend(t.sent, TodosFrame(t.pc.snap, true));
        }
      case RefreshWrite(ok) =>
        if t.pc.Refetched? {
          LastSnapshotAppend(t.sent, TodosFrame(t.pc.snap, true));
        }
      case _ =>
    }
  }

  lemma LatestRelay(s: State, step: SubStep, c: Conn)
    ensures LatestBy(s, Relay(step), DoRelay(s, step), c)
  {
    if c in s.tabs {
      var t := s.tabs[c];
      if s.sub.Sending? {
        LastSnapshotAppend(t.sent, ReplyFrame(s.sub.text, s.sub.entry));
      } else if s.sub.Writing? {
        LastSnapshotAppend(t.sent, TodosFrame(s.sub.snap, false));
      }
    }
  }

  lemma LatestNext(s: State, step: Step, c: Conn)
    ensures LatestBy(s, step, Next(s, step), c)
  {
    match step
    case Work(w, work) => WorkOnlyLogs(s, w, work);
    case Browse(d, tab) => LatestBrowse(s, d, tab, c);
    case Relay(sub) => LatestRelay(s, sub, c);
    case _ => OthersOnlyGrow(s, step);
  }

  /** The last step of the run that wrote a snapshot to `c`. */
  function LastWrite(steps: seq<Step>, c: Conn): (k: Option<nat>)
    ensures k.Some? ==> k.value < |steps| && Writes(Run(steps[..k.value]), steps[k.value], c)
  {
    if |steps| == 0 then None
    else
      var n := |steps| - 1;
      if Writes(Run(steps[..n]), steps[n], c) then Some(n)
      else
        var k := LastWrite(steps[..n], c);
        assert k.Some? ==> steps[..n][..k.value] == steps[..k.value];
        k
  }

  lemma StepLatest(s: State, step: Step, s': State, c: Conn)
    requires s' == Next(s, step)
    ensures LatestBy(s, step, s', c)
  {
    LatestNext(s, step, c);
  }

  /** What a tab has last is what the last write to it wrote. */
  lemma {:induction false} LatestIsLastWritten(steps: seq<Step>, c: Conn, s: State)
    requires s == Run(steps)
    ensures var k := LastWrite(steps, c);
            Latest(s, c) == if k.Some? then Some(Written(Run(steps[..k.value]), steps[k.value], c)) else None
  {
    if |steps| > 0 {
      var n := |steps| - 1;
      var before := Run(steps[..n]);
      StepLatest(before, steps[n], s, c);
      LatestIsLastWritten(steps[..n], c, before);
      var k := LastWrite(steps[..n], c);
      assert k.Some? ==> steps[..n][..k.value] == steps[..k.value];
    }
  }

  // ---- the invariants ----

  /** The last snapshot is older than `v`. */
  predicate Behind(t: Tab, v: nat)
  {
    LastSnapshot(t.sent).Some? && LastSnapshot(t.sent).value.snap < v
  }

  /** If the tab is behind `v`, it wrote that snapshot itself. A failed write is excused. */
  predicate Excused(t: Tab, v: nat)
  {
    Behind(t, v) ==> t.broken || LastSnapshot(t.sent).value.own
  }

  ghost predicate AllExcused(tabs: map<Conn, Tab>, conns: map<string, Conn>, v: nat, except: set<Conn>)
  {
    forall c :: c in conns.Values && c in tabs && c !in except ==> Excused(tabs[c], v)
  }

  /** Greeted tabs have a snapshot, unregistered ones none; nobody is written to before registering. */
  ghost predicate Greetings(tabs: map<Conn, Tab>, sub: SubPc)
  {
    && (forall c :: c in tabs && tabs[c].greeted ==> LastSnapshot(tabs[c].sent).Some?)
    && (forall c :: c in tabs && tabs[c].pc.Accepted? ==> LastSnapshot(tabs[c].sent).None?)
    && (sub.Writing? ==> forall c :: c in sub.left && c in tabs ==> !tabs[c].pc.Accepted?)
  }

  /** The subscriber fetches one list after the other, each newer than all announcements it finished. */
  ghost predicate FetchesAdvance(sub: SubPc, finished: set<nat>)
  {
    sub.Copying? || sub.Writing? ==> forall v :: v in finished ==> v <= sub.snap
  }

  ghost predicate Tracked(s: State)
  {
    && Greetings(s.tabs, s.sub)
    && FetchesAdvance(s.sub, s.finished)
    && (forall v :: v in s.finished ==> AllExcused(s.tabs, s.conns, v, {}))
    && (s.sub.Writing? ==> AllExcused(s.tabs, s.conns, s.sub.asOf, s.sub.left))
  }

  // ---- preservation ----

  lemma TrackedTab(s: State, c: Conn, t: Tab)
    requires Tracked(s) && c in s.tabs
    requires forall v: nat :: Excused(s.tabs[c], v) ==> Excused(t, v)
    requires t.greeted ==> LastSnapshot(t.sent).Some?
    requires t.pc.Accepted? ==> s.tabs[c].pc.Accepted? && LastSnapshot(t.sent).None?
    ensures Tracked(WithTab(s, c, t))
  {
    var tabs' := s.tabs[c := t];
    forall v | v in s.finished ensures AllExcused(tabs', s.conns, v, {}) {
      assert AllExcused(s.tabs, s.conns, v, {});
    }
  }

  lemma TrackedAccept(s: State, c: Conn, t: Tab)
    requires Tracked(s) && c !in s.tabs && t.sent == [] && !t.greeted
    requires s.sub.Writing? ==> c !in s.sub.left
    ensures Tracked(WithTab(s, c, t))
  {
    var tabs' := s.tabs[c := t];
    forall v | v in s.finished ensures AllExcused(tabs', s.conns, v, {}) {
      assert AllExcused(s.tabs, s.conns, v, {});
    }
  }

  /** Who registers now has no snapshot yet. */
  lemma TrackedRegister(s: State, c: Conn)
    requires Tracked(s)
    ensures Tracked(DoBrowse(s, c, RegisterTab))
  {
    var s' := DoBrowse(s, c, RegisterTab);
    if s' != s {
      assert forall d :: d in s'.conns.Values ==> d == c || d in s.conns.Values;
      forall v | v in s.finished ensures AllExcused(s'.tabs, s'.conns, v, {}) {
        assert AllExcused(s.tabs, s.conns, v, {});
      }
    }
  }

  lemma TrackedLeave(s: State, c: Conn)
    requires Tracked(s)
    ensures Tracked(DoBrowse(s, c, Leave))
  {
    var s' := DoBrowse(s, c, Leave);
    if s' != s {
      FewerConns(s.conns, s.tabs[c].sid);
      forall v | v in s.finished ensures AllExcused(s'.tabs, s'.conns, v, {}) {
        assert AllExcused(s.tabs, s.conns, v, {});
      }
    }
  }

  lemma FewerConns(conns: map<string, Conn>, sid: string)
    ensures Unregister(conns, sid).Values <= conns.Values
  {
    forall d | d in Unregister(conns, sid).Values ensures d in conns.Values {
      var t :| t in Unregister(conns, sid) && Unregister(conns, sid)[t] == d;
      assert conns[t] == d;
    }
  }

  /** The tab writes what it fetched itself. */
  lemma TrackedOwnWrite(s: State, c: Conn, t: Tab, snap: nat, ok: bool)
    requires Tracked(s) && c in s.tabs && !s.tabs[c].pc.Accepted? && !t.pc.Accepted?
    requires var t' := Write(s.tabs[c], TodosFrame(snap, true), ok);
             t.sent == t'.sent && t.broken == t'.broken && (t.greeted ==> !t'.broken || s.tabs[c].greeted)
    ensures Tracked(WithTab(s, c, t))
  {
    LastSnapshotAppend(s.tabs[c].sent, TodosFrame(snap, true));
    TrackedTab(s, c, t);
  }

  lemma TrackedBrowse(s: State, c: Conn, step: TabStep)
    requires Tracked(s) && Fresh(s)
    requires s.sub.Writing? ==> s.sub.left <= s.tabs.Keys
    ensures Tracked(DoBrowse(s, c, step))
  {
    var s' := DoBrowse(s, c, step);
    if s' != s {
      match step
      case Accept(_) => TrackedAccept(s, c, s'.tabs[c]);
      case RegisterTab => TrackedRegister(s, c);
      case Leave => TrackedLeave(s, c);
      case Chat(_, _) =>
      case FirstWrite(ok) => TrackedOwnWrite(s, c, s'.tabs[c], s.tabs[c].pc.snap, ok);
      case RefreshWrite(ok) => TrackedOwnWrite(s, c, s'.tabs[c], s.tabs[c].pc.snap, ok);
      case _ => TrackedTab(s, c, s'.tabs[c]);
    }
  }

  lemma TrackedReply(s: State, ok: bool)
    requires Tracked(s)
    ensures Tracked(DoRelay(s, SendReply(ok)))
  {
    var s' := DoRelay(s, SendReply(ok));
    if s' != s {
      var c := s.sub.conn;
      LastSnapshotAppend(s.tabs[c].sent, ReplyFrame(s.sub.text, s.sub.entry));
      TrackedTab(s, c, s'.tabs[c]);
    }
  }

  /** What the subscriber writes is at least as new as every finished announcement, and its own. */
  lemma TrackedWriteTo(s: State, c: Conn, ok: bool)
    requires Tracked(s) && Fresh(s)
    ensures Tracked(DoRelay(s, WriteTo(c, ok)))
  {
    var s' := DoRelay(s, WriteTo(c, ok));
    if s' != s {
      LastSnapshotAppend(s.tabs[c].sent, TodosFrame(s.sub.snap, false));
      forall v: nat | v <= s.sub.snap ensures Excused(s'.tabs[c], v) {
      }
      forall v | v in s.finished ensures AllExcused(s'.tabs, s.conns, v, {}) {
        assert AllExcused(s.tabs, s.conns, v, {});
      }
    }
  }

  lemma TrackedRelay(s: State, step: SubStep)
    requires Tracked(s) && Fresh(s)
    ensures Tracked(DoRelay(s, step))
  {
    match step
    case SendReply(ok) => TrackedReply(s, ok);
    case WriteTo(c, ok) => TrackedWriteTo(s, c, ok);
    case FinishBroadcast =>
      var s' := DoRelay(s, step);
      forall v | v in s'.finished ensures AllExcused(s'.tabs, s.conns, v, {}) {
        assert v in s.finished ==> AllExcused(s.tabs, s.conns, v, {});
      }
    case _ =>
  }

  /** Whoever is still to be written to has a tab. */
  predicate LeftHaveTabs(s: State)
  {
    s.sub.Writing? ==> s.sub.left <= s.tabs.Keys
  }

  lemma LeftBrowse(s: State, c: Conn, tab: TabStep)
    requires LeftHaveTabs(s)
    ensures LeftHaveTabs(DoBrowse(s, c, tab))
  {
  }

  lemma LeftRelay(s: State, step: SubStep)
    requires Fresh(s) && LeftHaveTabs(s)
    ensures LeftHaveTabs(DoRelay(s, step))
  {
  }

  lemma LeftNext(s: State, step: Step)
    requires Fresh(s) && LeftHaveTabs(s)
    ensures LeftHaveTabs(Next(s, step))
  {
    match step
    case Work(w, work) => WorkOnlyLogs(s, w, work);
    case Browse(c, tab) => LeftBrowse(s, c, tab);
    case Relay(sub) => LeftRelay(s, sub);
    case _ => OthersOnlyGrow(s, step);
  }

  lemma TrackedNext(s: State, step: Step)
    requires Tracked(s) && Fresh(s) && LeftHaveTabs(s)
    ensures Tracked(Next(s, step))
  {
    match step
    case Work(w, work) => WorkOnlyLogs(s, w, work);
    case Browse(c, tab) => TrackedBrowse(s, c, tab);
    case Relay(sub) => TrackedRelay(s, sub);
    case _ => OthersOnlyGrow(s, step);
  }

  lemma {:induction false} AlwaysTracked(steps: seq<Step>)
    ensures Tracked(Run(steps)) && LeftHaveTabs(Run(steps))
  {
    if |steps| > 0 {
      var n := |steps| - 1;
      AlwaysTracked(steps[..n]);
      AlwaysFresh(steps[..n]);
      LeftNext(Run(steps[..n]), steps[n]);
      TrackedNext(Run(steps[..n]), steps[n]);
    }
  }

  // ---- what it means ----

  /** The last snapshot written to `c` is one of its own writes, of a list it fetched before version `v`. */
  predicate OldOwnWrite(steps: seq<Step>, c: Conn, v: nat)
  {
    var k := LastWrite(steps, c);
    k.Some? && steps[k.value].Browse? && Written(Run(steps[..k.value]), steps[k.value], c).snap < v
  }

  /**
   After the broadcast of version `v`, a greeted, unbroken, registered tab is left with an older
   snapshot if and only if the last snapshot it was sent is its own: an initial or refreshing one,
   fetched before `v`.
   */
  lemma StaleExactlyByOwnWrite(steps: seq<Step>, v: nat, sid: string)
    requires v in Run(steps).finished && sid in Run(steps).conns
    requires var s := Run(steps);
             s.conns[sid] in s.tabs && s.tabs[s.conns[sid]].greeted && !s.tabs[s.conns[sid]].broken
    ensures var s := Run(steps); var c := s.conns[sid];
            Latest(s, c).Some? && (Latest(s, c).value.snap < v <==> OldOwnWrite(steps, c, v))
  {
    var s := Run(steps);
    var c := s.conns[sid];
    AlwaysTracked(steps);
    assert c in s.conns.Values && AllExcused(s.tabs, s.conns, v, {});
    LatestIsLastWritten(steps, c, s);
    if Latest(s, c).value.snap < v {
      assert Excused(s.tabs[c], v);
    }
  }

  // ---- when it cannot happen ----

  /** Between a fetch older than `v` and its write. */
  predicate HoldsOlder(pc: TabPc, v: nat)
  {
    (pc.Fetched? || pc.Refetched?) && pc.snap < v
  }

  /** The last snapshot of `c` is at least as new as `v`. */
  predicate Shows(s: State, c: Conn, v: nat)
  {
    Latest(s, c).Some? && Latest(s, c).value.snap >= v
  }

  /** Nothing older than `v` can still be written to `c`. */
  predicate OnlyNewer(s: State, c: Conn, v: nat)
  {
    && v <= s.version && c in s.tabs && !HoldsOlder(s.tabs[c].pc, v)
    && (s.sub.Copying? || s.sub.Writing? ==> v <= s.sub.snap)
  }

  predicate UpToDate(s: State, c: Conn, v: nat)
  {
    Shows(s, c, v) && OnlyNewer(s, c, v)
  }

  lemma NewerBrowse(s: State, d: Conn, tab: TabStep, c: Conn, v: nat)
    requires OnlyNewer(s, c, v)
    ensures OnlyNewer(DoBrowse(s, d, tab), c, v)
  {
  }

  lemma NewerRelay(s: State, step: SubStep, c: Conn, v: nat)
    requires OnlyNewer(s, c, v)
    ensures OnlyNewer(DoRelay(s, step), c, v)
  {
  }

  lemma NoOlderFetch(s: State, step: Step, c: Conn, v: nat)
    requires OnlyNewer(s, c, v)
    ensures OnlyNewer(Next(s, step), c, v)
  {
    match step
    case Work(w, work) => WorkOnlyLogs(s, w, work);
    case Browse(d, tab) => NewerBrowse(s, d, tab, c, v);
    case Relay(sub) => NewerRelay(s, sub, c, v);
    case _ => OthersOnlyGrow(s, step);
  }

  lemma UpToDateNext(s: State, step: Step, c: Conn, v: nat)
    requires UpToDate(s, c, v)
    ensures UpToDate(Next(s, step), c, v)
  {
    NoOlderFetch(s, step, c, v);
    LatestNext(s, step, c);
  }

  lemma {:induction false} UpToDateForGood(steps: seq<Step>, more: seq<Step>, c: Conn, v: nat)
    requires UpToDate(Run(steps), c, v)
    ensures UpToDate(Run(steps + more), c, v)
  {
    RunLonger(steps, more);
    if |more| > 0 {
      var n := |more| - 1;
      UpToDateForGood(steps, more[..n], c, v);
      UpToDateNext(Run(steps + more[..n]), more[n], c, v);
    }
  }

  /** The step by which a tab writes what it has fetched. */
  function OwnWrite(c: Conn, pc: TabPc): Step
  {
    Browse(c, if pc.Fetched? then FirstWrite(true) else RefreshWrite(true))
  }

  lemma OlderArrivesLast(s: State, c: Conn, v: nat)
    requires c in s.tabs && HoldsOlder(s.tabs[c].pc, v) && !s.tabs[c].broken
    ensures !Shows(Next(s, OwnWrite(c, s.tabs[c].pc)), c, v)
  {
    LatestNext(s, OwnWrite(c, s.tabs[c].pc), c);
  }

  /**
   When the broadcast of a version writes to a tab, the tab shows that version or a later one from
   then on, whatever happens, if and only if it is not just then between an older fetch of its own
   and the write of it.
   */
  lemma CurrentFromThenOn(steps: seq<Step>, c: Conn)
    requires var s := Run(steps);
             s.sub.Writing? && c in s.sub.left && c in s.tabs && !s.tabs[c].broken && !s.tabs[c].pc.Closed?
    ensures var s := Run(steps); var written := steps + [Relay(WriteTo(c, true))];
            (forall more :: Shows(Run(written + more), c, s.sub.asOf)) <==> !HoldsOlder(s.tabs[c].pc, s.sub.asOf)
  {
    var s, written := Run(steps), steps + [Relay(WriteTo(c, true))];
    var v, pc := s.sub.asOf, s.tabs[c].pc;
    AlwaysFresh(steps);
    RunOneMore(steps, Relay(WriteTo(c, true)));
    LatestNext(s, Relay(WriteTo(c, true)), c);
    if HoldsOlder(pc, v) {
      RunOneMore(written, OwnWrite(c, pc));
      OlderArrivesLast(Run(written), c, v);
      assert !Shows(Run(written + [OwnWrite(c, pc)]), c, v);
    } else {
      forall more ensures Shows(Run(written + more), c, v) {
        UpToDateForGood(written, more, c, v);
      }
    }
  }

  // ---- a run that ends stale ----

  /** A turn is over except for announcing a change. */
  lemma TurnReady() returns (steps: seq<Step>, s: State)
    ensures Run(steps) == s && s.workers == map[0 := ReplyOut(0)] && s.version == 0 && s.bus == []
    ensures s.tabs == map[] && s.conns == map[] && s.sub == Waiting && s.finished == {}
  {
    steps := EndCutTurn();
    s := Run(steps);
  }

  /** A tab has fetched its first snapshot but not written it. */
  lemma TabFetches(steps: seq<Step>, s: State) returns (steps': seq<Step>)
    requires Run(steps) == s && s.tabs == map[] && s.conns == map[]
    ensures Run(steps') == s.(tabs := map[0 := Tab("a", Fetched(s.version), false, false, [])], conns := map["a" := 0])
  {
    var t := Tab("a", Accepted, false, false, []);
    steps' := Extend(steps, s, Browse(0, Accept("a")));
    var s' := s.(tabs := map[0 := t]);
    steps' := Extend(steps', s', Browse(0, RegisterTab));
    s' := s'.(tabs := map[0 := t.(pc := Registered)], conns := map["a" := 0]);
    steps' := Extend(steps', s', Browse(0, FirstFetch(true)));
    assert s'.tabs[0 := t.(pc := Fetched(s.version))] == map[0 := t.(pc := Fetched(s.version))];
  }

  /** The data changes and the turn announces it. */
  lemma ChangeIsAnnounced(steps: seq<Step>, s: State) returns (steps': seq<Step>, s': State)
    requires Run(steps) == s && s.workers == map[0 := ReplyOut(0)] && s.version == 0 && s.bus == []
    ensures Run(steps') == s' && s'.bus == [ChangeNote(1)] && s'.version == 1
    ensures s'.tabs == s.tabs && s'.conns == s.conns && s'.sub == s.sub && s'.finished == s.finished
  {
    steps' := Extend(steps, s, Edit);
    s' := s.(version := 1);
    steps' := Extend(steps', s', Work(0, PublishChange(true)));
    s' := Next(s', Work(0, PublishChange(true)));
    assert [] + [ChangeNote(1)] == [ChangeNote(1)];
  }

  /** The subscriber fetches the list and copies the connections. */
  lemma ConnsCopied(steps: seq<Step>, s: State) returns (steps': seq<Step>)
    requires Run(steps) == s && s.bus == [ChangeNote(1)] && s.version == 1 && s.sub == Waiting
    requires s.conns == map["a" := 0]
    ensures Run(steps') == s.(bus := [], sub := Writing(1, 1, {0}))
  {
    steps' := Extend(steps, s, Relay(Take));
    var s' := s.(bus := [], sub := Fetching(1));
    steps' := Extend(steps', s', Relay(FetchList(true)));
    s' := s'.(sub := Copying(1, 1));
    steps' := Extend(steps', s', Relay(CopyConns));
    assert s.conns.Values == {0} by { assert s.conns["a"] == 0; }
  }

  /** The change is written to the one tab. */
  lemma ChangeIsWritten(steps: seq<Step>, s: State, t: Tab) returns (steps': seq<Step>)
    requires Run(steps) == s && s.sub == Writing(1, 1, {0})
    requires s.tabs == map[0 := t] && !t.broken && !t.pc.Closed?
    ensures Run(steps') ==
            s.(sub := Writing(1, 1, {}), tabs := map[0 := t.(sent := t.sent + [TodosFrame(1, false)])])
  {
    steps' := Extend(steps, s, Relay(WriteTo(0, true)));
    assert {0} - {0} == {};
  }

  lemma BroadcastEnds(steps: seq<Step>, s: State) returns (steps': seq<Step>)
    requires Run(steps) == s && s.sub == Writing(1, 1, {}) && s.finished == {}
    ensures Run(steps') == s.(sub := Waiting, finished := {1})
  {
    steps' := Extend(steps, s, Relay(FinishBroadcast));
    assert {} + {1} == {1};
  }

  /** It does happen: the initial snapshot arrives after the broadcast that supersedes it. */
  lemma LastSnapshotMayBeStale()
    ensures exists steps: seq<Step> :: EndsStale(Run(steps))
  {
    var steps, s := TurnReady();
    steps := TabFetches(steps, s);
    s := Run(steps);
    steps, s := ChangeIsAnnounced(steps, s);
    var t := s.tabs[0];
    steps := ConnsCopied(steps, s);
    s := Run(steps);
    steps := ChangeIsWritten(steps, s, t);
    s := Run(steps);
    steps := BroadcastEnds(steps, s);
    s := Run(steps);
    steps := Extend(steps, s, Browse(0, FirstWrite(true)));
    assert 0 in s.conns.Values by { assert s.conns["a"] == 0; }
    assert EndsStale(Run(steps));
  }

  /** A registered, greeted, unbroken tab got version 1, whose broadcast has finished, and then version 0. */
  ghost predicate EndsStale(s: State)
  {
    && 1 in s.finished && 0 in s.conns.Values && 0 in s.tabs
    && s.tabs[0].greeted && !s.tabs[0].broken
    && s.tabs[0].sent == [TodosFrame(1, false), TodosFrame(0, true)]
  }
}
