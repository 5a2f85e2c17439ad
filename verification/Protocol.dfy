/**
 The chat pipeline as a transition system: browser tabs and their handleWS goroutines, one Redis
 Stream read through a consumer group by any number of agent-workers, Redis Pub/Sub, and the
 gateway's subscribeUpdates loop with the hub it shares with the tabs. One step is one atomic action:
 a Redis command, a tool call, a critical section of the hub, a list fetch or a connection write.
 */
module Protocol {
  import opened Text
  import opened Wrappers

  type Conn = nat
  type WorkerId = nat

  // ---- Redis ----

  /** An entry of agent:tasks; its id is its position. `from` is the connection that queued it. */
  datatype Entry = Entry(sid: string, text: string, from: Option<Conn>)

  /**
   The consumer group agent-workers: entries below `last` have been delivered, `pending` are those
   not acknowledged. `acked` is history.
   */
  datatype Group = Group(last: nat, pending: set<nat>, acked: set<nat>)

  /** A Pub/Sub message waiting in the gateway's channel; `entry` is the entry the reply answers. */
  datatype Note = ChatNote(sid: string, text: string, entry: nat) | ChangeNote(asOf: nat)

  // ---- agent-worker ----

  /** `left`: how many effects the current tool call is still to have on the data. */
  datatype WorkerPc =
    | Booting
    | Reading
    | Delivered(entry: nat)
    | InTurn(entry: nat)
    | Calling(entry: nat, left: nat)
    | TurnDone(entry: nat, reply: string)
    | ReplyOut(entry: nat)
    | ChangeOut(entry: nat)
    | Crashed

  /**
   What happened, in order. Versions count the changes of the todo data. Called: a request for so many
   effects reached the tool server; ToolRan: one effect of such a request on the data; CutShort: the worker gave up on a
   request that still has effects to come.
   */
  datatype Event =
    | Started(entry: nat, worker: WorkerId)
    | Called(entry: nat, effects: nat)
    | ToolRan(entry: nat, version: nat)
    | CutShort(entry: nat)
    | ReplyPublished(entry: nat, text: string)
    | ChangePublished(entry: nat, asOf: nat)
    | Acked(entry: nat)

  // ---- websocket-gateway ----

  /**
   What a browser receives. A snapshot is known by the version of the data it was fetched at, and
   `own` says whether the tab's own goroutine fetched and wrote it, or else the subscriber.
   */
  datatype Frame = ReplyFrame(text: string, entry: nat) | TodosFrame(snap: nat, own: bool)

  datatype TabPc =
    | Accepted
    | Registered
    | Fetched(snap: nat)
    | Serving
    | Refetched(snap: nat)
    | Unregistered
    | Closed

  /** `greeted`: the initial snapshot was written. `broken`: some write to the connection failed. */
  datatype Tab = Tab(sid: string, pc: TabPc, greeted: bool, broken: bool, sent: seq<Frame>)

  /** Where subscribeUpdates is; sendTo and broadcast write after leaving the hub's lock. */
  datatype SubPc =
    | Waiting
    | Routing(sid: string, text: string, entry: nat)
    | Sending(conn: Conn, text: string, entry: nat)
    | Fetching(asOf: nat)
    | Copying(asOf: nat, snap: nat)
    | Writing(asOf: nat, snap: nat, left: set<Conn>)

  /** `inflight`: for each entry, the effects of its abandoned tool calls that are still to come. */
  datatype State = State(
    stream: seq<Entry>,
    group: Option<Group>,
    workers: map<WorkerId, WorkerPc>,
    log: seq<Event>,
    bus: seq<Note>,
    version: nat,
    inflight: multiset<nat>,
    tabs: map<Conn, Tab>,
    conns: map<string, Conn>,
    sub: SubPc,
    finished: set<nat>)

  const INIT := State([], None, map[], [], [], 0, multiset{}, map[], map[], Waiting, {})

  // ---- the hub's critical sections ----

  function Register<C>(conns: map<string, C>, sid: string, c: C): map<string, C>
  {
    conns[sid := c]
  }

  function Unregister<C>(conns: map<string, C>, sid: string): map<string, C>
  {
    conns - {sid}
  }

  // ---- steps; a step that is not enabled changes nothing ----

  datatype WorkStep =
    | Spawn
    | EnsureGroup
    | Read
    | Begin
    | Call(effects: nat)
    | TakeEffect
    | Return
    | EndTurn(reply: string)
    | PublishReply(heard: bool)
    | PublishChange(heard: bool)
    | Ack
    | Crash

  datatype TabStep =
    | Accept(sid: string)
    | RegisterTab
    | FirstFetch(ok: bool)
    | FirstWrite(ok: bool)
    | Chat(text: string, ok: bool)
    | Refresh(ok: bool)
    | RefreshWrite(ok: bool)
    | Leave
    | Close

  datatype SubStep =
    | Take
    | Lookup
    | SendReply(ok: bool)
    | FetchList(ok: bool)
    | CopyConns
    | WriteTo(conn: Conn, ok: bool)
    | FinishBroadcast

  datatype Step =
    | Work(worker: WorkerId, work: WorkStep)
    | Browse(conn: Conn, tab: TabStep)
    | Relay(sub: SubStep)
    | CreateGroup
    | Inject(text: string)
    | Edit
    | Land(entry: nat)

  /** XGROUP CREATE agent:tasks agent-workers 0 MKSTREAM; an existing group is left alone. */
  function GroupCreated(g: Option<Group>): Option<Group>
  {
    if g.None? then Some(Group(0, {}, {})) else g
  }

  function Published(bus: seq<Note>, n: Note, heard: bool): seq<Note>
  {
    if heard then bus + [n] else bus
  }

  function WithPc(s: State, w: WorkerId, pc: WorkerPc): State
  {
    s.(workers := s.workers[w := pc])
  }

  /** A tool call is over, answered or not; what it has not done yet may still happen. */
  function Abandon(s: State, e: nat, left: nat): State
  {
    if left == 0 then s
    else s.(inflight := s.inflight[e := s.inflight[e] + left], log := s.log + [CutShort(e)])
  }

  /** An effect that its caller no longer waits for. */
  function Landed(s: State, e: nat): State
  {
    if e in s.inflight then
      s.(inflight := s.inflight[e := s.inflight[e] - 1],
         version := s.version + 1,
         log := s.log + [ToolRan(e, s.version + 1)])
    else s
  }

  function DoWork(s: State, w: WorkerId, step: WorkStep): State
  {
    if step.Spawn? then
      if w in s.workers then s else WithPc(s, w, Booting)
    else if w !in s.workers then s
    else
      var pc := s.workers[w];
      match step
      case EnsureGroup =>
        if pc.Booting? then WithPc(s, w, Reading).(group := GroupCreated(s.group)) else s
      case Read =>
        if pc.Reading? && s.group.Some? && s.group.value.last < |s.stream| then
          var e := s.group.value.last;
          WithPc(s, w, Delivered(e)).(
            group := Some(s.group.value.(last := e + 1, pending := s.group.value.pending + {e})))
        else s
      case Begin =>
        if pc.Delivered? then WithPc(s, w, InTurn(pc.entry)).(log := s.log + [Started(pc.entry, w)]) else s
      case Call(effects) =>
        if pc.InTurn? then
          WithPc(s, w, Calling(pc.entry, effects)).(log := s.log + [Called(pc.entry, effects)])
        else s
      case TakeEffect =>
        if pc.Calling? && pc.left > 0 then
          WithPc(s, w, Calling(pc.entry, pc.left - 1)).(
            version := s.version + 1, log := s.log + [ToolRan(pc.entry, s.version + 1)])
        else s
      case Return =>
        if pc.Calling? then Abandon(WithPc(s, w, InTurn(pc.entry)), pc.entry, pc.left) else s
      case EndTurn(reply) =>
        if pc.InTurn? then WithPc(s, w, TurnDone(pc.entry, reply)) else s
      case PublishReply(heard) =>
        if pc.TurnDone? && pc.entry < |s.stream| then
          var sid := s.stream[pc.entry].sid;
          if sid == "" then WithPc(s, w, ReplyOut(pc.entry))
          else
            WithPc(s, w, ReplyOut(pc.entry)).(
              bus := Published(s.bus, ChatNote(sid, pc.reply, pc.entry), heard),
              log := s.log + [ReplyPublished(pc.entry, pc.reply)])
        else s
      case PublishChange(heard) =>
        if pc.ReplyOut? then
          WithPc(s, w, ChangeOut(pc.entry)).(
            bus := Published(s.bus, ChangeNote(s.version), heard),
            log := s.log + [ChangePublished(pc.entry, s.version)])
        else s
      case Ack =>
        if pc.ChangeOut? && s.group.Some? then
          var g := s.group.value;
          WithPc(s, w, Reading).(
            group := Some(g.(pending := g.pending - {pc.entry}, acked := g.acked + {pc.entry})),
            log := s.log + [Acked(pc.entry)])
        else s
      case Crash =>
        if pc.Calling? then Abandon(WithPc(s, w, Crashed), pc.entry, pc.left) else WithPc(s, w, Crashed)
      case Spawn => s
  }

  function WithTab(s: State, c: Conn, t: Tab): State
  {
    s.(tabs := s.tabs[c := t])
  }

  /** wsjson.Write: a failed write reaches nobody and leaves the connection unusable. */
  function Write(t: Tab, f: Frame, ok: bool): Tab
  {
    if ok && !t.broken && !t.pc.Closed? then t.(sent := t.sent + [f]) else t.(broken := true)
  }

  predicate FreshSid(tabs: map<Conn, Tab>, sid: string)
  {
    sid != "" && forall c :: c in tabs ==> tabs[c].sid != sid
  }

  function DoBrowse(s: State, c: Conn, step: TabStep): State
  {
    if step.Accept? then
      if c !in s.tabs && FreshSid(s.tabs, step.sid) then
        WithTab(s, c, Tab(step.sid, Accepted, false, false, []))
      else s
    else if c !in s.tabs then s
    else
      var t := s.tabs[c];
      match step
      case RegisterTab =>
        if t.pc.Accepted? then WithTab(s, c, t.(pc := Registered)).(conns := Register(s.conns, t.sid, c)) else s
      case FirstFetch(ok) =>
        if t.pc.Registered? then WithTab(s, c, t.(pc := if ok then Fetched(s.version) else Serving)) else s
      case FirstWrite(ok) =>
        if t.pc.Fetched? then
          var t' := Write(t, TodosFrame(t.pc.snap, true), ok);
          WithTab(s, c, t'.(pc := Serving, greeted := !t'.broken))
        else s
      case Chat(text, ok) =>
        if t.pc.Serving? && TrimSpace(text) != "" && ok then
          s.(stream := s.stream + [Entry(t.sid, text, Some(c))])
        else s
      case Refresh(ok) =>
        if t.pc.Serving? && ok then WithTab(s, c, t.(pc := Refetched(s.version))) else s
      case RefreshWrite(ok) =>
        if t.pc.Refetched? then WithTab(s, c, Write(t, TodosFrame(t.pc.snap, true), ok).(pc := Serving)) else s
      case Leave =>
        if t.pc.Serving? then WithTab(s, c, t.(pc := Unregistered)).(conns := Unregister(s.conns, t.sid)) else s
      case Close =>
        if t.pc.Unregistered? then WithTab(s, c, t.(pc := Closed)) else s
      case Accept(_) => s
  }

  function DoRelay(s: State, step: SubStep): State
  {
    match (step, s.sub)
    case (Take, Waiting) =>
      if |s.bus| == 0 then s
      else
        var n := s.bus[0];
        s.(bus := s.bus[1..], sub := if n.ChatNote? then Routing(n.sid, n.text, n.entry) else Fetching(n.asOf))
    case (Lookup, Routing(sid, text, e)) =>
      s.(sub := if sid in s.conns then Sending(s.conns[sid], text, e) else Waiting)
    case (SendReply(ok), Sending(c, text, e)) =>
      if c in s.tabs then WithTab(s, c, Write(s.tabs[c], ReplyFrame(text, e), ok)).(sub := Waiting) else s
    case (FetchList(ok), Fetching(asOf)) =>
      s.(sub := if ok then Copying(asOf, s.version) else Waiting)
    case (CopyConns, Copying(asOf, snap)) =>
      s.(sub := Writing(asOf, snap, s.conns.Values))
    case (WriteTo(c, ok), Writing(asOf, snap, left)) =>
      if c in left && c in s.tabs then
        WithTab(s, c, Write(s.tabs[c], TodosFrame(snap, false), ok)).(sub := Writing(asOf, snap, left - {c}))
      else s
    case (FinishBroadcast, Writing(asOf, snap, left)) =>
      if left == {} then s.(sub := Waiting, finished := s.finished + {asOf}) else s
    case _ => s
  }

  function Next(s: State, step: Step): State
  {
    match step
    case Work(w, work) => DoWork(s, w, work)
    case Browse(c, tab) => DoBrowse(s, c, tab)
    case Relay(sub) => DoRelay(s, sub)
    case CreateGroup => s.(group := GroupCreated(s.group))
    case Inject(text) => s.(stream := s.stream + [Entry("", text, None)])
    case Edit => s.(version := s.version + 1)
    case Land(e) => Landed(s, e)
  }

  /** The state after a run, from the start, of any steps in any order. */
  function Run(steps: seq<Step>): State
  {
    if |steps| == 0 then INIT else Next(Run(steps[..|steps| - 1]), steps[|steps| - 1])
  }
}
