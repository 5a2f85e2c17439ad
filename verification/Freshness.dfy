/**
 No missed change: a tab registers before its first fetch, so a broadcast either writes to it or
 finished copying the connections before the tab fetched.
 */
module Freshness {
  import opened Protocol
  import opened QueueSafety
  import opened Routing
  import opened Settlement
  import opened Wrappers

  /** A snapshot fetched at version `v` or later was written to the connection. */
  ghost predicate HasFresh(sent: seq<Frame>, v: nat)
  {
    exists k :: 0 <= k < |sent| && sent[k].TodosFrame? && sent[k].snap >= v
  }

  predicate BeforeFirstWrite(pc: TabPc)
  {
    pc.Accepted? || pc.Registered? || pc.Fetched?
  }

  /**
   The tab has a snapshot at least as new as `v`, or its own first fetch will see to it. Failed
   fetches and writes are excused.
   */
  ghost predicate Promised(t: Tab, v: nat)
  {
    || t.broken
    || HasFresh(t.sent, v)
    || t.pc.Registered?
    || (t.pc.Fetched? && t.pc.snap >= v)
    || (!t.greeted && !BeforeFirstWrite(t.pc))
  }

  // ---- the invariants ----

  ghost predicate TabsInOrder(tabs: map<Conn, Tab>, conns: map<string, Conn>)
  {
    && (forall c :: c in tabs && BeforeFirstWrite(tabs[c].pc) ==> !tabs[c].greeted)
    && (forall c :: c in conns.Values ==> c in tabs && !tabs[c].pc.Accepted?)
  }

  ghost predicate VersionsBounded(s: State)
  {
    && (forall i :: 0 <= i < |s.bus| && s.bus[i].ChangeNote? ==> s.bus[i].asOf <= s.version)
    && (forall v :: v in s.finished ==> v <= s.version)
    && match s.sub
       case Fetching(asOf) => asOf <= s.version
       case Copying(asOf, snap) => asOf <= snap <= s.version
       case Writing(asOf, snap, _) => asOf <= snap <= s.version
       case _ => true
  }

  ghost predicate AllPromised(tabs: map<Conn, Tab>, conns: map<string, Conn>, v: nat, except: set<Conn>)
  {
    forall c :: c in conns.Values && c in tabs && c !in except ==> Promised(tabs[c], v)
  }

  ghost predicate FinishedKept(tabs: map<Conn, Tab>, conns: map<string, Conn>, finished: set<nat>)
  {
    forall v :: v in finished ==> AllPromised(tabs, conns, v, {})
  }

  ghost predicate Fresh(s: State)
  {
    && TabsInOrder(s.tabs, s.conns)
    && VersionsBounded(s)
    && FinishedKept(s.tabs, s.conns, s.finished)
    && (s.sub.Writing? ==> AllPromised(s.tabs, s.conns, s.sub.asOf, s.sub.left))
  }

  // ---- preservation ----

  /** What the tab of one connection may turn into without breaking a promise made for it. */
  ghost predicate KeepsPromises(t: Tab, t': Tab, version: nat)
  {
    forall v: nat :: v <= version && Promised(t, v) ==> Promised(t', v)
  }

  lemma FreshTab(s: State, c: Conn, t: Tab)
    requires Fresh(s) && c in s.tabs && KeepsPromises(s.tabs[c], t, s.version)
    requires BeforeFirstWrite(t.pc) ==> !t.greeted
    requires t.pc.Accepted? ==> s.tabs[c].pc.Accepted?
    ensures Fresh(WithTab(s, c, t))
  {
    forall v | v in s.finished ensures AllPromised(s.tabs[c := t], s.conns, v, {}) {
      assert AllPromised(s.tabs, s.conns, v, {});
    }
  }

  lemma SentKeepsFresh(sent: seq<Frame>, f: Frame)
    ensures forall v :: HasFresh(sent, v) ==> HasFresh(sent + [f], v)
    ensures f.TodosFrame? ==> HasFresh(sent + [f], f.snap)
  {
    var sent' := sent + [f];
    forall v | HasFresh(sent, v) ensures HasFresh(sent', v) {
      var k :| 0 <= k < |sent| && sent[k].TodosFrame? && sent[k].snap >= v;
      assert sent'[k] == sent[k];
    }
    if f.TodosFrame? {
      assert sent'[|sent|] == f;
    }
  }

  lemma WriteKeepsPromises(t: Tab, f: Frame, ok: bool, version: nat)
    ensures KeepsPromises(t, Write(t, f, ok), version)
    ensures f.TodosFrame? ==> forall v: nat :: v <= f.snap ==> Promised(Write(t, f, ok), v)
  {
    SentKeepsFresh(t.sent, f);
    if f.TodosFrame? && ok && !t.broken && !t.pc.Closed? {
      forall v: nat | v <= f.snap ensures HasFresh(t.sent + [f], v) {
        assert (t.sent + [f])[|t.sent|] == f;
      }
    }
  }

  lemma FreshBrowse(s: State, c: Conn, step: TabStep)
    requires Fresh(s) && RoutingSafe(s)
    ensures Fresh(DoBrowse(s, c, step))
  {
    var s' := DoBrowse(s, c, step);
    if s' != s {
      match step
      case Accept(_) => FreshAccept(s, c, s'.tabs[c]);
      case RegisterTab => FreshRegister(s, c);
      case Leave => FreshLeave(s, c);
      case Chat(_, _) =>
      case FirstWrite(ok) => FreshFirstWrite(s, c, ok);
      case RefreshWrite(ok) =>
        WriteKeepsPromises(s.tabs[c], TodosFrame(s.tabs[c].pc.snap, true), ok, s.version);
        FreshTab(s, c, s'.tabs[c]);
      case _ => FreshTab(s, c, s'.tabs[c]);
    }
  }

  lemma FreshAccept(s: State, c: Conn, t: Tab)
    requires Fresh(s) && c !in s.tabs && !t.greeted
    ensures Fresh(WithTab(s, c, t))
  {
    forall v | v in s.finished ensures AllPromised(s.tabs[c := t], s.conns, v, {}) {
      assert AllPromised(s.tabs, s.conns, v, {});
    }
  }

  /** A tab that registers now fetches later than any broadcast so far was announced. */
  lemma FreshRegister(s: State, c: Conn)
    requires Fresh(s)
    ensures Fresh(DoBrowse(s, c, RegisterTab))
  {
    var s' := DoBrowse(s, c, RegisterTab);
    assert forall d :: d in s'.conns.Values ==> d == c || d in s.conns.Values;
    forall v | v in s.finished ensures AllPromised(s'.tabs, s'.conns, v, {}) {
      assert AllPromised(s.tabs, s.conns, v, {});
    }
  }

  lemma LeaverIsGone(tabs: map<Conn, Tab>, conns: map<string, Conn>, c: Conn)
    requires HubFaithful(tabs, conns) && c in tabs
    ensures forall d :: d in Unregister(conns, tabs[c].sid).Values ==> d in conns.Values && d != c
  {
    var conns' := Unregister(conns, tabs[c].sid);
    forall d | d in conns'.Values ensures d in conns.Values && d != c {
      var sid :| sid in conns' && conns'[sid] == d;
      assert conns[sid] == d;
    }
  }

  lemma FreshLeave(s: State, c: Conn)
    requires Fresh(s) && HubFaithful(s.tabs, s.conns) && c in s.tabs
    ensures Fresh(DoBrowse(s, c, Leave))
  {
    var s' := DoBrowse(s, c, Leave);
    LeaverIsGone(s.tabs, s.conns, c);
    forall v | v in s.finished ensures AllPromised(s'.tabs, s'.conns, v, {}) {
      assert AllPromised(s.tabs, s.conns, v, {});
    }
  }

  lemma FreshFirstWrite(s: State, c: Conn, ok: bool)
    requires Fresh(s)
    ensures Fresh(DoBrowse(s, c, FirstWrite(ok)))
  {
    if c in s.tabs && s.tabs[c].pc.Fetched? {
      var t := s.tabs[c];
      var t' := Write(t, TodosFrame(t.pc.snap, true), ok);
      WriteKeepsPromises(t, TodosFrame(t.pc.snap, true), ok, s.version);
      var t'' := t'.(pc := Serving, greeted := !t'.broken);
      forall v: nat | v <= s.version && Promised(t, v) ensures Promised(t'', v) {
        if !t'.broken && t.pc.snap >= v {
          assert Promised(t', v);
          SentKeepsFresh(t.sent, TodosFrame(t.pc.snap, true));
        }
      }
      FreshTab(s, c, t'');
    }
  }

  lemma FreshRelay(s: State, step: SubStep)
    requires Fresh(s) && RoutingSafe(s)
    ensures Fresh(DoRelay(s, step))
  {
    var s' := DoRelay(s, step);
    if s' != s {
      match step
      case SendReply(ok) =>
        var c := s.sub.conn;
        WriteKeepsPromises(s.tabs[c], ReplyFrame(s.sub.text, s.sub.entry), ok, s.version);
        FreshTab(s, c, s'.tabs[c]);
      case WriteTo(c, ok) => FreshWriteTo(s, c, ok);
      case FinishBroadcast =>
        forall v | v in s'.finished ensures AllPromised(s.tabs, s.conns, v, {}) {
          assert v in s.finished ==> AllPromised(s.tabs, s.conns, v, {});
        }
      case _ =>
    }
  }

  /** The connection just written to is no longer owed the broadcast's change. */
  lemma FreshWriteTo(s: State, c: Conn, ok: bool)
    requires Fresh(s)
    ensures Fresh(DoRelay(s, WriteTo(c, ok)))
  {
    var s' := DoRelay(s, WriteTo(c, ok));
    if s' != s {
      var t := s.tabs[c];
      WriteKeepsPromises(t, TodosFrame(s.sub.snap, false), ok, s.version);
      FreshTab(s, c, s'.tabs[c]);
      assert AllPromised(s'.tabs, s.conns, s.sub.asOf, s.sub.left);
    }
  }

  /** Workers and edits only raise the version and add notes about it. */
  lemma FreshGrows(s: State, s': State)
    requires Fresh(s)
    requires s'.tabs == s.tabs && s'.conns == s.conns && s'.sub == s.sub && s'.finished == s.finished
    requires s.version <= s'.version
    requires s.bus <= s'.bus
    requires forall i :: |s.bus| <= i < |s'.bus| && s'.bus[i].ChangeNote? ==> s'.bus[i].asOf <= s'.version
    ensures Fresh(s')
  {
  }

  lemma NotesAreCurrent(s: State, w: WorkerId, step: WorkStep)
    ensures var s' := DoWork(s, w, step);
            forall i :: |s.bus| <= i < |s'.bus| && s'.bus[i].ChangeNote? ==> s'.bus[i].asOf <= s'.version
  {
  }

  lemma FreshNext(s: State, step: Step)
    requires Fresh(s) && RoutingSafe(s)
    ensures Fresh(Next(s, step))
  {
    match step
    case Work(w, work) =>
      WorkOnlyLogs(s, w, work);
      NotesAreCurrent(s, w, work);
      FreshGrows(s, Next(s, step));
    case Browse(c, tab) => FreshBrowse(s, c, tab);
    case Relay(sub) => FreshRelay(s, sub);
    case _ =>
      OthersOnlyGrow(s, step);
      FreshGrows(s, Next(s, step));
  }

  lemma {:induction false} AlwaysFresh(steps: seq<Step>)
    ensures Fresh(Run(steps))
  {
    if |steps| > 0 {
      AlwaysFresh(steps[..|steps| - 1]);
      RoutingAlwaysSafe(steps[..|steps| - 1]);
      FreshNext(Run(steps[..|steps| - 1]), steps[|steps| - 1]);
    }
  }

  // ---- what it means ----

  /**
   Once the broadcast of a change announced at version `v` has finished, every tab that is still
   registered and has had its initial snapshot written has been sent a snapshot fetched at `v` or
   later, unless a write to it failed.
   */
  lemma NoMissedChange(steps: seq<Step>, v: nat, sid: string)
    requires v in Run(steps).finished && sid in Run(steps).conns
    ensures var s := Run(steps); var c := s.conns[sid];
            c in s.tabs && (s.tabs[c].greeted && !s.tabs[c].broken ==> HasFresh(s.tabs[c].sent, v))
  {
    var s := Run(steps);
    AlwaysFresh(steps);
    assert s.conns[sid] in s.conns.Values;
    assert AllPromised(s.tabs, s.conns, v, {});
  }

  ghost predicate Shown(s: State, sid: string, v: nat)
    requires sid in s.conns
  {
    var c := s.conns[sid];
    c in s.tabs && (s.tabs[c].greeted && !s.tabs[c].broken ==> HasFresh(s.tabs[c].sent, v))
  }

  lemma EveryoneShown(steps: seq<Step>, v: nat)
    requires v in Run(steps).finished
    ensures forall sid :: sid in Run(steps).conns ==> Shown(Run(steps), sid, v)
  {
    forall sid | sid in Run(steps).conns ensures Shown(Run(steps), sid, v) {
      NoMissedChange(steps, v, sid);
    }
  }

  /**
   The version announced by event j includes just those effects of the turn that landed before it,
   and once its broadcast has finished it has reached everyone.
   */
  ghost predicate Reaches(s: State, j: int)
    requires 0 <= j < |s.log| && s.log[j].ChangePublished?
  {
    && (forall i :: ToolAt(s.log, i, s.log[j].entry) ==> (s.log[i].version <= s.log[j].asOf <==> i < j))
    && (s.log[j].asOf in s.finished ==> forall sid :: sid in s.conns ==> Shown(s, sid, s.log[j].asOf))
  }

  /**
   From a chat to every screen: when an entry is acknowledged, its turn announced some version that
   covers the tool calls' effects up to then and no later ones, and once that broadcast has finished
   every greeted, unbroken tab has been sent a snapshot no older than any of them.
   */
  lemma TurnReachesEveryTab(steps: seq<Step>, k: nat)
    requires k < |Run(steps).log| && Run(steps).log[k].Acked?
    ensures var s := Run(steps);
            exists j :: 0 <= j < k && ChangeAt(s.log, j, s.log[k].entry) && Reaches(s, j)
  {
    AcknowledgedMeansSettled(steps, k);
    var s := Run(steps);
    var j :| j < k && SettledBy(s.log, j, s.log[k].entry, s.stream[s.log[k].entry].sid);
    if s.log[j].asOf in s.finished {
      EveryoneShown(steps, s.log[j].asOf);
    }
    QueueAlwaysSafe(steps);
    assert Reaches(s, j);
  }
}
