/**
 Where chat replies go: through the stream, a worker, Pub/Sub and the hub, back to the one connection
 whose chat they answer.
 */
module Routing {
  import opened Lex
  import opened Protocol
  import opened QueueSafety
  import opened Wrappers

  ghost predicate PublishedText(log: seq<Event>, e: int, text: string)
  {
    exists i :: ReplyAt(log, i, e) && log[i].text == text
  }

  /** `text` is the reply published for entry `e`, which session `sid` queued. */
  ghost predicate Answer(stream: seq<Entry>, log: seq<Event>, e: int, sid: string, text: string)
  {
    0 <= e < |stream| && stream[e].sid == sid && sid != "" && PublishedText(log, e, text)
  }

  // ---- the invariants ----

  /** Session ids are not empty and no two connections share one. */
  ghost predicate SidsDistinct(tabs: map<Conn, Tab>)
  {
    && (forall c :: c in tabs ==> tabs[c].sid != "")
    && (forall c, d :: c in tabs && d in tabs && tabs[c].sid == tabs[d].sid ==> c == d)
  }

  /** The hub maps a session id to the connection it was given to. */
  ghost predicate HubFaithful(tabs: map<Conn, Tab>, conns: map<string, Conn>)
  {
    forall sid :: sid in conns ==> conns[sid] in tabs && tabs[conns[sid]].sid == sid
  }

  /** An entry carries the session id of the connection that queued it, or none. */
  ghost predicate EntriesAttributed(stream: seq<Entry>, tabs: map<Conn, Tab>)
  {
    forall e :: 0 <= e < |stream| ==>
      if stream[e].from.None? then stream[e].sid == ""
      else stream[e].from.value in tabs && tabs[stream[e].from.value].sid == stream[e].sid
  }

  ghost predicate NotesAnswer(stream: seq<Entry>, log: seq<Event>, bus: seq<Note>)
  {
    forall i :: 0 <= i < |bus| && bus[i].ChatNote? ==> Answer(stream, log, bus[i].entry, bus[i].sid, bus[i].text)
  }

  ghost predicate SubAnswers(stream: seq<Entry>, log: seq<Event>, tabs: map<Conn, Tab>, sub: SubPc)
  {
    match sub
    case Routing(sid, text, e) => Answer(stream, log, e, sid, text)
    case Sending(c, text, e) => c in tabs && Answer(stream, log, e, tabs[c].sid, text)
    case _ => true
  }

  ghost predicate FramesAnswer(stream: seq<Entry>, log: seq<Event>, tabs: map<Conn, Tab>)
  {
    forall c, k :: c in tabs && 0 <= k < |tabs[c].sent| && tabs[c].sent[k].ReplyFrame? ==>
      Answer(stream, log, tabs[c].sent[k].entry, tabs[c].sid, tabs[c].sent[k].text)
  }

  predicate OnBus(bus: seq<Note>, i: int, e: nat)
  {
    0 <= i < |bus| && bus[i].ChatNote? && bus[i].entry == e
  }

  predicate AtSub(sub: SubPc, e: nat)
  {
    (sub.Routing? || sub.Sending?) && sub.entry == e
  }

  predicate InSent(sent: seq<Frame>, k: int, e: nat)
  {
    0 <= k < |sent| && sent[k].ReplyFrame? && sent[k].entry == e
  }

  /** A reply is in one place at a time: on the bus, in the subscriber's hands or delivered. */
  ghost predicate OnePlace(bus: seq<Note>, sub: SubPc, tabs: map<Conn, Tab>)
  {
    && (forall i, j, e :: OnBus(bus, i, e) && OnBus(bus, j, e) ==> i == j)
    && (forall i, e :: OnBus(bus, i, e) ==> !AtSub(sub, e))
    && (forall c, k, e :: c in tabs && InSent(tabs[c].sent, k, e) ==> !AtSub(sub, e))
    && (forall c, k, e, i :: c in tabs && InSent(tabs[c].sent, k, e) ==> !OnBus(bus, i, e))
    && (forall c, k, l, e :: c in tabs && InSent(tabs[c].sent, k, e) && InSent(tabs[c].sent, l, e) ==> k == l)
  }

  ghost predicate RoutingSafe(s: State)
  {
    && SidsDistinct(s.tabs)
    && HubFaithful(s.tabs, s.conns)
    && EntriesAttributed(s.stream, s.tabs)
    && NotesAnswer(s.stream, s.log, s.bus)
    && SubAnswers(s.stream, s.log, s.tabs, s.sub)
    && FramesAnswer(s.stream, s.log, s.tabs)
    && OnePlace(s.bus, s.sub, s.tabs)
  }

  // ---- preservation ----

  lemma AnswerStays(stream: seq<Entry>, stream': seq<Entry>, log: seq<Event>, log': seq<Event>)
    requires stream <= stream' && log <= log'
    ensures forall e, sid, text :: Answer(stream, log, e, sid, text) ==> Answer(stream', log', e, sid, text)
  {
    forall e, sid, text | Answer(stream, log, e, sid, text) ensures Answer(stream', log', e, sid, text) {
      var i :| ReplyAt(log, i, e) && log[i].text == text;
      assert ReplyAt(log', i, e);
    }
  }

  /** Everything that reads the stream and the log survives when they grow. */
  lemma RoutingGrows(s: State, s': State)
    requires RoutingSafe(s)
    requires s.stream <= s'.stream && s.log <= s'.log
    requires EntriesAttributed(s'.stream, s.tabs)
    requires s'.bus == s.bus && s'.tabs == s.tabs && s'.conns == s.conns && s'.sub == s.sub
    ensures RoutingSafe(s')
  {
    AnswerStays(s.stream, s'.stream, s.log, s'.log);
  }

  lemma WorkOnlyLogs(s: State, w: WorkerId, step: WorkStep)
    ensures var s' := DoWork(s, w, step);
            && s'.stream == s.stream && s.log <= s'.log && |s'.log| <= |s.log| + 1
            && s'.tabs == s.tabs && s'.conns == s.conns && s'.sub == s.sub && s'.finished == s.finished
            && s.bus <= s'.bus && |s'.bus| <= |s.bus| + 1 && s.version <= s'.version
  {
  }

  /** The one step that puts a reply on the bus finds it nowhere yet. */
  lemma RoutingPublish(s: State, s': State, e: nat, text: string)
    requires RoutingSafe(s) && !Replied(s.log, e)
    requires e < |s.stream| && s.stream[e].sid != ""
    requires s' == s.(workers := s'.workers, log := s.log + [ReplyPublished(e, text)],
                      bus := s.bus + [ChatNote(s.stream[e].sid, text, e)])
    ensures RoutingSafe(s')
  {
    AnswerStays(s.stream, s.stream, s.log, s'.log);
    assert ReplyAt(s'.log, |s.log|, e);
    NothingUnanswered(s, e);
    var bus' := s'.bus;
    forall i, f | OnBus(bus', i, f) ensures (f == e && i == |s.bus|) || OnBus(s.bus, i, f) {
    }
  }

  lemma NothingUnanswered(s: State, e: nat)
    requires RoutingSafe(s) && !Replied(s.log, e)
    ensures forall i :: !OnBus(s.bus, i, e)
    ensures !AtSub(s.sub, e)
    ensures forall c, k :: c in s.tabs ==> !InSent(s.tabs[c].sent, k, e)
  {
  }

  lemma NotYetReplied(s: State, w: WorkerId)
    requires QueueSafe(s) && w in s.workers && s.workers[w].TurnDone?
    ensures !Replied(s.log, s.workers[w].entry)
  {
    var e := s.workers[w].entry;
    assert AtStage(s.stream, s.log, s.workers[w]);
    StageTells(s.log, e, s.stream[e].sid);
  }

  lemma RoutingWork(s: State, w: WorkerId, step: WorkStep)
    requires RoutingSafe(s) && QueueSafe(s)
    ensures RoutingSafe(DoWork(s, w, step))
  {
    var s' := DoWork(s, w, step);
    WorkOnlyLogs(s, w, step);
    if s'.bus == s.bus {
      RoutingGrows(s, s');
    } else if step.PublishReply? {
      NotYetReplied(s, w);
      RoutingPublish(s, s', s.workers[w].entry, s.workers[w].reply);
    } else {
      RoutingGrows(s, s'.(bus := s.bus));
      assert forall i, e :: OnBus(s'.bus, i, e) ==> OnBus(s.bus, i, e);
    }
  }

  /** A fresh session id keeps ids distinct, and a new tab has received nothing. */
  lemma RoutingAccept(s: State, c: Conn, t: Tab)
    requires RoutingSafe(s) && c !in s.tabs && FreshSid(s.tabs, t.sid) && t.sent == []
    ensures RoutingSafe(WithTab(s, c, t))
  {
    var tabs' := s.tabs[c := t];
    assert forall d, k, e :: d in tabs' && InSent(tabs'[d].sent, k, e) ==> d in s.tabs && InSent(s.tabs[d].sent, k, e);
  }

  /** The tab keeps its id and receives at most a snapshot. */
  lemma RoutingTabMoves(s: State, c: Conn, t: Tab)
    requires RoutingSafe(s) && c in s.tabs && t.sid == s.tabs[c].sid
    requires t.sent == s.tabs[c].sent || exists snap, own :: t.sent == s.tabs[c].sent + [TodosFrame(snap, own)]
    ensures RoutingSafe(WithTab(s, c, t))
  {
    var s' := WithTab(s, c, t);
    forall d, k, e | d in s'.tabs && InSent(s'.tabs[d].sent, k, e) ensures InSent(s.tabs[d].sent, k, e) {
    }
  }

  lemma RoutingBrowse(s: State, c: Conn, step: TabStep)
    requires RoutingSafe(s)
    ensures RoutingSafe(DoBrowse(s, c, step))
  {
    var s' := DoBrowse(s, c, step);
    if step.Accept? {
      if s' != s {
        RoutingAccept(s, c, s'.tabs[c]);
      }
    } else if s' != s {
      if step.Chat? {
        RoutingGrows(s, s');
      } else {
        var t := s'.tabs[c];
        RoutingTabMoves(s, c, t);
      }
    }
  }

  lemma RoutingTake(s: State)
    requires RoutingSafe(s)
    ensures RoutingSafe(DoRelay(s, Take))
  {
    var s' := DoRelay(s, Take);
    if s' != s {
      assert forall i, e :: OnBus(s'.bus, i, e) ==> OnBus(s.bus, i + 1, e);
      assert forall e :: AtSub(s'.sub, e) ==> OnBus(s.bus, 0, e);
    }
  }

  /** Delivery moves a reply from the subscriber's hands to the connection. */
  lemma OnePlaceDelivered(bus: seq<Note>, tabs: map<Conn, Tab>, c: Conn, t: Tab, text: string, e: nat)
    requires OnePlace(bus, Sending(c, text, e), tabs) && c in tabs
    requires t.sent == tabs[c].sent || t.sent == tabs[c].sent + [ReplyFrame(text, e)]
    ensures OnePlace(bus, Waiting, tabs[c := t])
  {
    var tabs' := tabs[c := t];
    assert AtSub(Sending(c, text, e), e);
    forall d, k, f | d in tabs' && InSent(tabs'[d].sent, k, f)
      ensures (d in tabs && InSent(tabs[d].sent, k, f)) || (d == c && k == |tabs[c].sent| && f == e)
    {
    }
  }

  lemma FramesDelivered(stream: seq<Entry>, log: seq<Event>, tabs: map<Conn, Tab>, c: Conn, t: Tab,
                        text: string, e: nat)
    requires FramesAnswer(stream, log, tabs) && SubAnswers(stream, log, tabs, Sending(c, text, e))
    requires t.sid == tabs[c].sid
    requires t.sent == tabs[c].sent || t.sent == tabs[c].sent + [ReplyFrame(text, e)]
    ensures FramesAnswer(stream, log, tabs[c := t])
  {
  }

  lemma RoutingSend(s: State, ok: bool)
    requires RoutingSafe(s)
    ensures RoutingSafe(DoRelay(s, SendReply(ok)))
  {
    if s.sub.Sending? {
      var c, text, e := s.sub.conn, s.sub.text, s.sub.entry;
      var t := Write(s.tabs[c], ReplyFrame(text, e), ok);
      OnePlaceDelivered(s.bus, s.tabs, c, t, text, e);
      FramesDelivered(s.stream, s.log, s.tabs, c, t, text, e);
    }
  }

  lemma RoutingRelay(s: State, step: SubStep)
    requires RoutingSafe(s)
    ensures RoutingSafe(DoRelay(s, step))
  {
    var s' := DoRelay(s, step);
    match step
    case Take => RoutingTake(s);
    case SendReply(ok) => RoutingSend(s, ok);
    case Lookup => RoutingLookup(s);
    case WriteTo(c, ok) =>
      if s' != s {
        RoutingTabMoves(s, c, s'.tabs[c]);
        RoutingNoReply(WithTab(s, c, s'.tabs[c]), s'.sub, s.finished);
      }
    case _ =>
      if s' != s {
        RoutingNoReply(s, s'.sub, s'.finished);
      }
  }

  lemma RoutingLookup(s: State)
    requires RoutingSafe(s)
    ensures RoutingSafe(DoRelay(s, Lookup))
  {
  }

  /** A subscriber with no reply in hand owes nothing. */
  lemma RoutingNoReply(s: State, sub: SubPc, finished: set<nat>)
    requires RoutingSafe(s) && !sub.Routing? && !sub.Sending?
    ensures RoutingSafe(s.(sub := sub, finished := finished))
  {
  }

  lemma LandedOnlyGrows(s: State, e: nat)
    ensures var s' := Landed(s, e);
            && s.stream == s'.stream && s.log <= s'.log && s.version <= s'.version
            && s'.bus == s.bus && s'.tabs == s.tabs && s'.conns == s.conns && s'.sub == s.sub
            && s'.finished == s.finished
  {
  }

  /** The steps of the world outside touch neither the hub nor the bus. */
  lemma OthersOnlyGrow(s: State, step: Step)
    requires step.CreateGroup? || step.Inject? || step.Edit? || step.Land?
    ensures var s' := Next(s, step);
            && s.stream <= s'.stream && s.log <= s'.log && s.version <= s'.version
            && (forall e :: |s.stream| <= e < |s'.stream| ==> s'.stream[e].from == None && s'.stream[e].sid == "")
            && s'.bus == s.bus && s'.tabs == s.tabs && s'.conns == s.conns && s'.sub == s.sub
            && s'.finished == s.finished
  {
    if step.Land? {
      LandedOnlyGrows(s, step.entry);
    }
  }

  lemma RoutingNext(s: State, step: Step)
    requires RoutingSafe(s) && QueueSafe(s)
    ensures RoutingSafe(Next(s, step))
  {
    match step
    case Work(w, work) => RoutingWork(s, w, work);
    case Browse(c, tab) => RoutingBrowse(s, c, tab);
    case Relay(sub) => RoutingRelay(s, sub);
    case _ =>
      OthersOnlyGrow(s, step);
      RoutingGrows(s, Next(s, step));
  }

  lemma {:induction false} RoutingAlwaysSafe(steps: seq<Step>)
    ensures RoutingSafe(Run(steps))
  {
    if |steps| > 0 {
      RoutingAlwaysSafe(steps[..|steps| - 1]);
      QueueAlwaysSafe(steps[..|steps| - 1]);
      RoutingNext(Run(steps[..|steps| - 1]), steps[|steps| - 1]);
    }
  }

  // ---- what it means ----

  /** The k-th frame of `c`, if it is a reply, answers an entry that `c` queued, in the text published for it. */
  ghost predicate ComesHome(s: State, c: Conn, k: int)
    requires c in s.tabs && 0 <= k < |s.tabs[c].sent|
  {
    var f := s.tabs[c].sent[k];
    f.ReplyFrame? ==>
      && f.entry < |s.stream| && s.stream[f.entry].from == Some(c)
      && PublishedText(s.log, f.entry, f.text)
  }

  /**
   Every chat reply a connection has received answers an entry that this very connection queued,
   with the text published for that entry, whatever the interleaving of tabs, workers and the
   subscriber, and although the hub writes after leaving its lock.
   */
  lemma RepliesReachTheirAsker(steps: seq<Step>)
    ensures forall c, k :: c in Run(steps).tabs && 0 <= k < |Run(steps).tabs[c].sent| ==> ComesHome(Run(steps), c, k)
  {
    RoutingAlwaysSafe(steps);
    AnswersComeHome(Run(steps));
  }

  lemma AnswersComeHome(s: State)
    requires SidsDistinct(s.tabs) && EntriesAttributed(s.stream, s.tabs) && FramesAnswer(s.stream, s.log, s.tabs)
    ensures forall c, k :: c in s.tabs && 0 <= k < |s.tabs[c].sent| ==> ComesHome(s, c, k)
  {
  }

  /** The entries a connection has received replies to, in order of arrival. */
  function Replies(sent: seq<Frame>): seq<nat>
  {
    if |sent| == 0 then []
    else
      var last := sent[|sent| - 1];
      Replies(sent[..|sent| - 1]) + (if last.ReplyFrame? then [last.entry] else [])
  }

  /** The entries a connection has queued. */
  function QueuedBy(stream: seq<Entry>, c: Conn): set<nat>
  {
    set e: nat | e < |stream| && stream[e].from == Some(c)
  }

  lemma {:induction false} RepliesDistinct(sent: seq<Frame>)
    requires forall k, l, e :: InSent(sent, k, e) && InSent(sent, l, e) ==> k == l
    ensures NoDuplicates(Replies(sent))
    ensures forall e :: e in Replies(sent) ==> exists k :: InSent(sent, k, e)
  {
    if |sent| > 0 {
      var n := |sent| - 1;
      forall k, l, e | InSent(sent[..n], k, e) && InSent(sent[..n], l, e) ensures k == l {
        assert InSent(sent, k, e) && InSent(sent, l, e);
      }
      RepliesDistinct(sent[..n]);
      forall e | e in Replies(sent) ensures exists k :: InSent(sent, k, e) {
        if e in Replies(sent[..n]) {
          var k :| InSent(sent[..n], k, e);
          assert InSent(sent, k, e);
        } else {
          assert InSent(sent, n, e);
        }
      }
      if sent[n].ReplyFrame? {
        assert InSent(sent, n, sent[n].entry);
        assert sent[n].entry !in Replies(sent[..n]) by {
          if sent[n].entry in Replies(sent[..n]) {
            var k :| InSent(sent[..n], k, sent[n].entry);
            assert InSent(sent, k, sent[n].entry);
          }
        }
      }
    }
  }

  /** No connection ever receives more replies than it queued chats, nor two replies to one chat. */
  lemma NoMoreRepliesThanChats(steps: seq<Step>, c: Conn)
    requires c in Run(steps).tabs
    ensures var s := Run(steps);
            && NoDuplicates(Replies(s.tabs[c].sent))
            && |Replies(s.tabs[c].sent)| <= |QueuedBy(s.stream, c)|
  {
    var s := Run(steps);
    RoutingAlwaysSafe(steps);
    RepliesDistinct(s.tabs[c].sent);
    AnswersComeHome(s);
    forall e | e in Replies(s.tabs[c].sent) ensures e in QueuedBy(s.stream, c) {
      var k :| InSent(s.tabs[c].sent, k, e);
      assert ComesHome(s, c, k);
    }
    NoDuplicatesSize(Replies(s.tabs[c].sent), QueuedBy(s.stream, c));
  }
}
