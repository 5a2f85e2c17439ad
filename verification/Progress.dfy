/**
 What does happen when nothing comes in between: each way through the pipeline, from any state that a
 run can reach, and the hub's map, which is exact in every state.
 */
module Progress {
  import opened Protocol
  import opened QueueSafety
  import opened Routing
  import opened Text
  import opened Wrappers

  // ---- who is registered ----

  predicate IsRegistered(pc: TabPc)
  {
    pc.Registered? || pc.Fetched? || pc.Serving? || pc.Refetched?
  }

  /** The hub's map holds just the tabs between registering and leaving, each under its session. */
  ghost predicate HubExact(s: State)
  {
    && (forall sid :: sid in s.conns ==>
          && s.conns[sid] in s.tabs && s.tabs[s.conns[sid]].sid == sid
          && IsRegistered(s.tabs[s.conns[sid]].pc))
    && (forall c :: c in s.tabs && IsRegistered(s.tabs[c].pc) ==>
          s.tabs[c].sid in s.conns && s.conns[s.tabs[c].sid] == c)
  }

  lemma HubExactRegister(s: State, c: Conn)
    requires HubExact(s) && SidsDistinct(s.tabs)
    ensures HubExact(DoBrowse(s, c, RegisterTab))
  {
  }

  lemma HubExactLeave(s: State, c: Conn)
    requires HubExact(s) && SidsDistinct(s.tabs)
    ensures HubExact(DoBrowse(s, c, Leave))
  {
  }

  /** A tab that keeps its session and stays registered, or unregistered, changes nothing. */
  lemma HubExactTab(s: State, c: Conn, t: Tab)
    requires HubExact(s)
    requires if c in s.tabs then t.sid == s.tabs[c].sid && (IsRegistered(t.pc) <==> IsRegistered(s.tabs[c].pc))
             else !IsRegistered(t.pc)
    ensures HubExact(WithTab(s, c, t))
  {
  }

  lemma HubExactBrowse(s: State, c: Conn, tab: TabStep)
    requires HubExact(s) && SidsDistinct(s.tabs)
    ensures HubExact(DoBrowse(s, c, tab))
  {
    var s' := DoBrowse(s, c, tab);
    if s' != s {
      match tab
      case RegisterTab => HubExactRegister(s, c);
      case Leave => HubExactLeave(s, c);
      case Chat(_, _) =>
      case _ => HubExactTab(s, c, s'.tabs[c]);
    }
  }

  lemma HubExactRelay(s: State, step: SubStep)
    requires HubExact(s)
    ensures HubExact(DoRelay(s, step))
  {
  }

  lemma HubExactNext(s: State, step: Step)
    requires HubExact(s) && RoutingSafe(s)
    ensures HubExact(Next(s, step))
  {
    match step
    case Work(w, work) => WorkOnlyLogs(s, w, work);
    case Browse(c, tab) => HubExactBrowse(s, c, tab);
    case Relay(sub) => HubExactRelay(s, sub);
    case _ => OthersOnlyGrow(s, step);
  }

  /** In every run the hub's map holds exactly the tabs that have registered and not left. */
  lemma {:induction false} HubAlwaysExact(steps: seq<Step>)
    ensures HubExact(Run(steps))
  {
    if |steps| > 0 {
      var n := |steps| - 1;
      HubAlwaysExact(steps[..n]);
      RoutingAlwaysSafe(steps[..n]);
      HubExactNext(Run(steps[..n]), steps[n]);
    }
  }

  // ---- the worker's and the gateway's ways ----

  /** One step more of a continuation whose state is known. */
  lemma OneMore(steps: seq<Step>, more: seq<Step>, step: Step, s: State)
    requires Run(steps + more) == s
    ensures Run(steps + (more + [step])) == Next(s, step)
  {
    RunOneMore(steps + more, step);
    assert steps + more + [step] == steps + (more + [step]);
  }

  function Received(s: State, c: Conn, f: Frame): State
    requires c in s.tabs
  {
    WithTab(s, c, s.tabs[c].(sent := s.tabs[c].sent + [f]))
  }

  /** The tab can be written to. */
  predicate Open(s: State, c: Conn)
  {
    c in s.tabs && !s.tabs[c].broken && !s.tabs[c].pc.Closed?
  }

  /** A reply in the subscriber's hands reaches its connection by the lookup and the write. */
  lemma ReplyIsSent(steps: seq<Step>, c: Conn)
    requires var s := Run(steps);
             s.sub.Routing? && s.sub.sid in s.conns && s.conns[s.sub.sid] == c && Open(s, c)
    ensures var s := Run(steps);
            Run(steps + [Relay(Lookup), Relay(SendReply(true))]) ==
            Received(s, c, ReplyFrame(s.sub.text, s.sub.entry)).(sub := Waiting)
  {
    var s := Run(steps);
    assert steps + [] == steps;
    OneMore(steps, [], Relay(Lookup), s);
    OneMore(steps, [] + [Relay(Lookup)], Relay(SendReply(true)), s.(sub := Sending(c, s.sub.text, s.sub.entry)));
    assert [] + [Relay(Lookup)] + [Relay(SendReply(true))] == [Relay(Lookup), Relay(SendReply(true))];
  }

  /** The first reply on the bus reaches the connection of its session. */
  lemma NoteIsSent(steps: seq<Step>, c: Conn)
    requires var s := Run(steps);
             && s.sub.Waiting? && |s.bus| > 0 && s.bus[0].ChatNote?
             && s.bus[0].sid in s.conns && s.conns[s.bus[0].sid] == c && Open(s, c)
    ensures var s := Run(steps);
            Run(steps + [Relay(Take), Relay(Lookup), Relay(SendReply(true))]) ==
            Received(s, c, ReplyFrame(s.bus[0].text, s.bus[0].entry)).(bus := s.bus[1..])
  {
    var s := Run(steps);
    RunOneMore(steps, Relay(Take));
    ReplyIsSent(steps + [Relay(Take)], c);
    assert steps + [Relay(Take)] + [Relay(Lookup), Relay(SendReply(true))] ==
           steps + [Relay(Take), Relay(Lookup), Relay(SendReply(true))];
  }

  /** A chat that is not blank is queued as it was typed, under the session of its connection. */
  lemma ChatIsQueued(steps: seq<Step>, c: Conn, text: string)
    requires c in Run(steps).tabs && Run(steps).tabs[c].pc.Serving?
    ensures var s := Run(steps);
            Run(steps + [Browse(c, Chat(text, true))]) ==
            if AllSpace(text) then s else s.(stream := s.stream + [Entry(s.tabs[c].sid, text, Some(c))])
  {
    RunOneMore(steps, Browse(c, Chat(text, true)));
    BlankTrimsToNothing(text);
  }

  /** What a worker with nothing else to do makes of the next entry. */
  function TurnSteps(w: WorkerId, reply: string): seq<Step>
  {
    [Work(w, Read), Work(w, Begin), Work(w, EndTurn(reply)), Work(w, PublishReply(true))]
  }

  ghost predicate CanRead(s: State, w: WorkerId)
  {
    w in s.workers && s.workers[w].Reading? && s.group.Some? && s.group.value.last < |s.stream|
  }

  /** The state in which worker `w` has begun the turn of the next entry. */
  function Begun(s: State, w: WorkerId): State
    requires s.group.Some?
  {
    var g := s.group.value;
    WithPc(s, w, InTurn(g.last)).(group := Some(Group(g.last + 1, g.pending + {g.last}, g.acked)),
                                  log := s.log + [Started(g.last, w)])
  }

  lemma TurnBegins(steps: seq<Step>, w: WorkerId)
    requires CanRead(Run(steps), w)
    ensures Run(steps + [Work(w, Read), Work(w, Begin)]) == Begun(Run(steps), w)
  {
    var s := Run(steps);
    var g := s.group.value;
    assert steps + [] == steps;
    OneMore(steps, [], Work(w, Read), s);
    var read := WithPc(s, w, WorkerPc.Delivered(g.last)).(
                  group := Some(Group(g.last + 1, g.pending + {g.last}, g.acked)));
    OneMore(steps, [] + [Work(w, Read)], Work(w, Begin), read);
    assert s.workers[w := WorkerPc.Delivered(g.last)][w := InTurn(g.last)] == s.workers[w := InTurn(g.last)];
    assert [] + [Work(w, Read)] + [Work(w, Begin)] == [Work(w, Read), Work(w, Begin)];
  }

  lemma TurnReplies(steps: seq<Step>, w: WorkerId, reply: string)
    requires var s := Run(steps);
             && w in s.workers && s.workers[w].InTurn?
             && s.workers[w].entry < |s.stream| && s.stream[s.workers[w].entry].sid != ""
    ensures var s := Run(steps); var e := s.workers[w].entry;
            Run(steps + [Work(w, EndTurn(reply)), Work(w, PublishReply(true))]) ==
            WithPc(s, w, ReplyOut(e)).(bus := s.bus + [ChatNote(s.stream[e].sid, reply, e)],
                                       log := s.log + [ReplyPublished(e, reply)])
  {
    var s := Run(steps);
    var e := s.workers[w].entry;
    assert steps + [] == steps;
    OneMore(steps, [], Work(w, EndTurn(reply)), s);
    OneMore(steps, [] + [Work(w, EndTurn(reply))], Work(w, PublishReply(true)), WithPc(s, w, TurnDone(e, reply)));
    assert s.workers[w := TurnDone(e, reply)][w := ReplyOut(e)] == s.workers[w := ReplyOut(e)];
    assert [] + [Work(w, EndTurn(reply))] + [Work(w, PublishReply(true))] ==
           [Work(w, EndTurn(reply)), Work(w, PublishReply(true))];
  }

  /** The turn of the next entry, if it names a session, puts its reply at the end of the bus. */
  lemma TurnAnswers(steps: seq<Step>, w: WorkerId, reply: string)
    requires var s := Run(steps); CanRead(s, w) && s.stream[s.group.value.last].sid != ""
    ensures var s, s' := Run(steps), Run(steps + TurnSteps(w, reply));
            var e := s.group.value.last;
            && s'.bus == s.bus + [ChatNote(s.stream[e].sid, reply, e)]
            && s'.stream == s.stream && s'.tabs == s.tabs && s'.conns == s.conns && s'.sub == s.sub
  {
    TurnBegins(steps, w);
    var mid := steps + [Work(w, Read), Work(w, Begin)];
    TurnReplies(mid, w, reply);
    assert mid + [Work(w, EndTurn(reply)), Work(w, PublishReply(true))] == steps + TurnSteps(w, reply);
  }

  function ChatSteps(c: Conn, text: string, w: WorkerId, reply: string): seq<Step>
  {
    [Browse(c, Chat(text, true))] + TurnSteps(w, reply) + [Relay(Take), Relay(Lookup), Relay(SendReply(true))]
  }

  /**
   From any state a run can reach: what a registered tab chats, and nothing else is queued ahead of,
   comes back to that tab as the reply of the turn, and no other tab receives anything.
   */
  lemma ChatIsAnswered(steps: seq<Step>, c: Conn, text: string, w: WorkerId, reply: string)
    requires var s := Run(steps);
             && Open(s, c) && s.tabs[c].pc.Serving? && !AllSpace(text)
             && w in s.workers && s.workers[w].Reading? && s.group.Some? && s.group.value.last == |s.stream|
             && s.sub.Waiting? && s.bus == []
    ensures var s, s' := Run(steps), Run(steps + ChatSteps(c, text, w, reply));
            && s'.stream == s.stream + [Entry(s.tabs[c].sid, text, Some(c))]
            && s'.tabs == Received(s, c, ReplyFrame(reply, |s.stream|)).tabs
            && s'.bus == [] && s'.sub == Waiting
  {
    var s := Run(steps);
    HubAlwaysExact(steps);
    RoutingAlwaysSafe(steps);
    ChatIsQueued(steps, c, text);
    var asked := steps + [Browse(c, Chat(text, true))];
    TurnAnswers(asked, w, reply);
    var answered := asked + TurnSteps(w, reply);
    assert Run(answered).bus == [ChatNote(s.tabs[c].sid, reply, |s.stream|)];
    NoteIsSent(answered, c);
    assert answered + [Relay(Take), Relay(Lookup), Relay(SendReply(true))] == steps + ChatSteps(c, text, w, reply);
  }

  lemma TabRegisters(steps: seq<Step>, c: Conn)
    requires Open(Run(steps), c) && Run(steps).tabs[c].pc.Accepted?
    ensures var s := Run(steps); var t := s.tabs[c];
            Run(steps + [Browse(c, RegisterTab), Browse(c, FirstFetch(true))]) ==
            WithTab(s, c, t.(pc := Fetched(s.version))).(conns := s.conns[t.sid := c])
  {
    var s := Run(steps);
    var t := s.tabs[c];
    assert steps + [] == steps;
    OneMore(steps, [], Browse(c, RegisterTab), s);
    var registered := WithTab(s, c, t.(pc := Registered)).(conns := s.conns[t.sid := c]);
    OneMore(steps, [] + [Browse(c, RegisterTab)], Browse(c, FirstFetch(true)), registered);
    assert registered.tabs[c := t.(pc := Fetched(s.version))] == s.tabs[c := t.(pc := Fetched(s.version))];
    assert [] + [Browse(c, RegisterTab)] + [Browse(c, FirstFetch(true))] ==
           [Browse(c, RegisterTab), Browse(c, FirstFetch(true))];
  }

  /** A tab that has just connected is registered, and greeted with the current list. */
  lemma FirstSnapshotIsSent(steps: seq<Step>, c: Conn)
    requires Open(Run(steps), c) && Run(steps).tabs[c].pc.Accepted?
    ensures var s := Run(steps); var t := s.tabs[c];
            Run(steps + [Browse(c, RegisterTab), Browse(c, FirstFetch(true)), Browse(c, FirstWrite(true))]) ==
            WithTab(s, c, Tab(t.sid, Serving, true, false, t.sent + [TodosFrame(s.version, true)])).(
              conns := s.conns[t.sid := c])
  {
    var s := Run(steps);
    var t := s.tabs[c];
    var fetched := steps + [Browse(c, RegisterTab), Browse(c, FirstFetch(true))];
    TabRegisters(steps, c);
    RunOneMore(fetched, Browse(c, FirstWrite(true)));
    var t' := Tab(t.sid, Serving, true, false, t.sent + [TodosFrame(s.version, true)]);
    assert Run(fetched).tabs[c := t'] == s.tabs[c := t'];
    assert fetched + [Browse(c, FirstWrite(true))] ==
           steps + [Browse(c, RegisterTab), Browse(c, FirstFetch(true)), Browse(c, FirstWrite(true))];
  }

  /** A refresh brings the tab the current list. */
  lemma RefreshIsSent(steps: seq<Step>, c: Conn)
    requires Open(Run(steps), c) && Run(steps).tabs[c].pc.Serving?
    ensures var s := Run(steps);
            Run(steps + [Browse(c, Refresh(true)), Browse(c, RefreshWrite(true))]) ==
            Received(s, c, TodosFrame(s.version, true))
  {
    var s := Run(steps);
    var t := s.tabs[c];
    assert steps + [] == steps;
    OneMore(steps, [], Browse(c, Refresh(true)), s);
    var fetched := WithTab(s, c, t.(pc := Refetched(s.version)));
    OneMore(steps, [] + [Browse(c, Refresh(true))], Browse(c, RefreshWrite(true)), fetched);
    assert fetched.tabs[c := t.(sent := t.sent + [TodosFrame(s.version, true)])] ==
           Received(s, c, TodosFrame(s.version, true)).tabs;
    assert [] + [Browse(c, Refresh(true))] + [Browse(c, RefreshWrite(true))] ==
           [Browse(c, Refresh(true)), Browse(c, RefreshWrite(true))];
  }

  /** The first change on the bus makes the subscriber fetch the list and copy the connections. */
  lemma BroadcastStarts(steps: seq<Step>)
    requires var s := Run(steps); s.sub.Waiting? && |s.bus| > 0 && s.bus[0].ChangeNote?
    ensures var s := Run(steps);
            Run(steps + [Relay(Take), Relay(FetchList(true)), Relay(CopyConns)]) ==
            s.(bus := s.bus[1..], sub := Writing(s.bus[0].asOf, s.version, s.conns.Values))
  {
    var s := Run(steps);
    var asOf := s.bus[0].asOf;
    assert steps + [] == steps;
    OneMore(steps, [], Relay(Take), s);
    var one := [] + [Relay(Take)];
    OneMore(steps, one, Relay(FetchList(true)), s.(bus := s.bus[1..], sub := Fetching(asOf)));
    var two := one + [Relay(FetchList(true))];
    OneMore(steps, two, Relay(CopyConns), s.(bus := s.bus[1..], sub := Copying(asOf, s.version)));
    assert two + [Relay(CopyConns)] == [Relay(Take), Relay(FetchList(true)), Relay(CopyConns)];
  }

  /** It brings every registered tab in turn the list as it is when fetched. */
  lemma ChangeIsSent(steps: seq<Step>, c: Conn)
    requires var s := Run(steps);
             && s.sub.Waiting? && |s.bus| > 0 && s.bus[0].ChangeNote?
             && Open(s, c) && IsRegistered(s.tabs[c].pc)
    ensures var s := Run(steps);
            var s' := Run(steps + [Relay(Take), Relay(FetchList(true)), Relay(CopyConns), Relay(WriteTo(c, true))]);
            && s'.tabs == Received(s, c, TodosFrame(s.version, false)).tabs
            && s'.sub == Writing(s.bus[0].asOf, s.version, s.conns.Values - {c}) && s'.bus == s.bus[1..]
  {
    var s := Run(steps);
    HubAlwaysExact(steps);
    assert s.conns[s.tabs[c].sid] in s.conns.Values;
    var copied := steps + [Relay(Take), Relay(FetchList(true)), Relay(CopyConns)];
    BroadcastStarts(steps);
    RunOneMore(copied, Relay(WriteTo(c, true)));
    assert copied + [Relay(WriteTo(c, true))] ==
           steps + [Relay(Take), Relay(FetchList(true)), Relay(CopyConns), Relay(WriteTo(c, true))];
  }

  lemma ChangeIsTold(steps: seq<Step>, w: WorkerId)
    requires w in Run(steps).workers && Run(steps).workers[w].ReplyOut?
    ensures var s, s' := Run(steps), Run(steps + [Work(w, PublishChange(true))]);
            s' == WithPc(s, w, ChangeOut(s.workers[w].entry)).(
                    bus := s.bus + [ChangeNote(s.version)],
                    log := s.log + [ChangePublished(s.workers[w].entry, s.version)])
  {
    RunOneMore(steps, Work(w, PublishChange(true)));
  }

  lemma EntryIsFreed(steps: seq<Step>, w: WorkerId)
    requires w in Run(steps).workers && Run(steps).workers[w].ChangeOut?
    ensures var s, s' := Run(steps), Run(steps + [Work(w, Ack)]);
            var e := s.workers[w].entry;
            && s'.workers == s.workers[w := Reading] && s'.bus == s.bus
            && Pending(s'.group) == Pending(s.group) - {e} && AckedSet(s'.group) == AckedSet(s.group) + {e}
            && s'.tabs == s.tabs && s'.conns == s.conns && s'.sub == s.sub && s'.version == s.version
  {
    QueueAlwaysSafe(steps);
    assert Run(steps).workers[w].entry in Pending(Run(steps).group);
    RunOneMore(steps, Work(w, Ack));
  }

  /** The end of a turn announces the current version and frees the worker and the entry. */
  lemma ChangeIsAnnounced(steps: seq<Step>, w: WorkerId)
    requires w in Run(steps).workers && Run(steps).workers[w].ReplyOut?
    ensures var s, s' := Run(steps), Run(steps + [Work(w, PublishChange(true)), Work(w, Ack)]);
            var e := s.workers[w].entry;
            && s'.bus == s.bus + [ChangeNote(s.version)] && s'.workers == s.workers[w := Reading]
            && Pending(s'.group) == Pending(s.group) - {e} && AckedSet(s'.group) == AckedSet(s.group) + {e}
            && s'.tabs == s.tabs && s'.conns == s.conns && s'.sub == s.sub && s'.version == s.version
  {
    var s, told := Run(steps), steps + [Work(w, PublishChange(true))];
    ChangeIsTold(steps, w);
    EntryIsFreed(told, w);
    assert Run(told).workers[w := Reading] == s.workers[w := Reading];
    assert told + [Work(w, Ack)] == steps + [Work(w, PublishChange(true)), Work(w, Ack)];
  }

  /** A tab that leaves is out of the hub's map, alone, and can be written to no more once it is closed. */
  lemma TabLeaves(steps: seq<Step>, c: Conn)
    requires c in Run(steps).tabs && Run(steps).tabs[c].pc.Serving?
    ensures var s := Run(steps); var t := s.tabs[c];
            Run(steps + [Browse(c, Leave), Browse(c, TabStep.Close)]) ==
            WithTab(s, c, t.(pc := Closed)).(conns := s.conns - {t.sid})
  {
    var s := Run(steps);
    var t := s.tabs[c];
    assert steps + [] == steps;
    OneMore(steps, [], Browse(c, Leave), s);
    var left := WithTab(s, c, t.(pc := Unregistered)).(conns := s.conns - {t.sid});
    OneMore(steps, [] + [Browse(c, Leave)], Browse(c, TabStep.Close), left);
    assert left.tabs[c := t.(pc := Closed)] == s.tabs[c := t.(pc := Closed)];
    assert [] + [Browse(c, Leave)] + [Browse(c, TabStep.Close)] == [Browse(c, Leave), Browse(c, TabStep.Close)];
  }
}
