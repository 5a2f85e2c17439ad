/**
 What becomes of every reply: Routing says where it may go, and this that it does not vanish on the
 way but for the reasons the code has.
 */
module Arrivals {
  import opened Protocol
  import opened QueueSafety
  import opened Routing
  import opened Wrappers

  /** The reply to `e` is on the bus or in the subscriber's hands. */
  ghost predicate Travelling(s: State, e: nat)
  {
    (exists i :: OnBus(s.bus, i, e)) || AtSub(s.sub, e)
  }

  /** The k-th frame of `c` is a reply to `e`. */
  predicate ReplyTo(tabs: map<Conn, Tab>, c: Conn, k: int, e: nat)
  {
    c in tabs && InSent(tabs[c].sent, k, e)
  }

  ghost predicate Arrived(tabs: map<Conn, Tab>, e: nat)
  {
    exists c, k :: ReplyTo(tabs, c, k, e)
  }

  /** Worker `w` is about to publish a reply to `e`. */
  predicate Publishes(s: State, w: WorkerId, e: nat)
  {
    && w in s.workers && s.workers[w].TurnDone? && s.workers[w].entry == e
    && e < |s.stream| && s.stream[e].sid != ""
  }

  /**
   The step loses the reply to `e`: the gateway does not hear it, its session has no connection, or
   the write to the connection fails.
   */
  predicate Drops(s: State, step: Step, e: nat)
  {
    match step
    case Work(w, PublishReply(heard)) => !heard && Publishes(s, w, e)
    case Relay(Lookup) => s.sub.Routing? && s.sub.entry == e && s.sub.sid !in s.conns
    case Relay(SendReply(ok)) =>
      && s.sub.Sending? && s.sub.entry == e && s.sub.conn in s.tabs
      && (!ok || s.tabs[s.sub.conn].broken || s.tabs[s.sub.conn].pc.Closed?)
    case _ => false
  }

  predicate ExactlyOne(a: bool, b: bool, c: bool)
  {
    (a || b || c) && !(a && b) && !(a && c) && !(b && c)
  }

  /** A published reply travels, has arrived or was dropped, one of them; no other reply is anywhere. */
  ghost predicate Fate(s: State, e: nat, dropped: bool)
  {
    if Replied(s.log, e) then ExactlyOne(Travelling(s, e), Arrived(s.tabs, e), dropped)
    else !Travelling(s, e) && !Arrived(s.tabs, e) && !dropped
  }

  /** Nothing has happened to the reply to `e`. */
  ghost predicate SameFate(s: State, s': State, e: nat)
  {
    && (Replied(s'.log, e) <==> Replied(s.log, e))
    && (Travelling(s', e) <==> Travelling(s, e))
    && (Arrived(s'.tabs, e) <==> Arrived(s.tabs, e))
  }

  lemma SameLogSameReplies(log: seq<Event>, log': seq<Event>, e: nat)
    requires log <= log' && forall i :: |log| <= i < |log'| ==> !ReplyAt(log', i, e)
    ensures Replied(log', e) <==> Replied(log, e)
  {
    if i :| ReplyAt(log, i, e) {
      assert ReplyAt(log', i, e);
    }
    if i :| ReplyAt(log', i, e) {
      assert ReplyAt(log, i, e);
    }
  }

  /** What a worker's step does to the bus and the log, as far as replies go. */
  lemma WorkOnBus(s: State, w: WorkerId, work: WorkStep, e: nat)
    requires !(work.PublishReply? && Publishes(s, w, e))
    ensures var s' := DoWork(s, w, work);
            && (forall i :: |s.log| <= i < |s'.log| ==> !ReplyAt(s'.log, i, e))
            && (forall i :: OnBus(s'.bus, i, e) <==> OnBus(s.bus, i, e))
  {
  }

  lemma WorkFate(s: State, w: WorkerId, work: WorkStep, e: nat)
    requires !(work.PublishReply? && Publishes(s, w, e))
    ensures SameFate(s, DoWork(s, w, work), e)
  {
    WorkOnlyLogs(s, w, work);
    WorkOnBus(s, w, work, e);
    SameLogSameReplies(s.log, DoWork(s, w, work).log, e);
  }

  /** Publishing puts the reply on the bus, if the gateway hears it, and nowhere else. */
  lemma PublishFate(s: State, w: WorkerId, e: nat, heard: bool)
    requires QueueSafe(s) && Publishes(s, w, e) && Fate(s, e, false)
    ensures Fate(DoWork(s, w, PublishReply(heard)), e, !heard)
  {
    NotYetReplied(s, w);
    var s' := DoWork(s, w, PublishReply(heard));
    assert ReplyAt(s'.log, |s.log|, e);
    if heard {
      assert OnBus(s'.bus, |s.bus|, e);
    }
  }

  lemma OthersFate(s: State, step: Step, e: nat)
    requires step.CreateGroup? || step.Inject? || step.Edit? || step.Land?
    ensures SameFate(s, Next(s, step), e)
  {
    OthersOnlyGrow(s, step);
    SameLogSameReplies(s.log, Next(s, step).log, e);
  }

  /** A tab's own step hands it no reply and takes none away. */
  lemma BrowseFate(s: State, c: Conn, tab: TabStep, e: nat)
    ensures SameFate(s, DoBrowse(s, c, tab), e)
  {
    var s' := DoBrowse(s, c, tab);
    BrowseKeepsReplies(s, c, tab, e);
  }

  lemma BrowseKeepsReplies(s: State, c: Conn, tab: TabStep, e: nat)
    ensures var s' := DoBrowse(s, c, tab);
            && s'.log == s.log && s'.bus == s.bus && s'.sub == s.sub
            && (forall d, k :: ReplyTo(s'.tabs, d, k, e) <==> ReplyTo(s.tabs, d, k, e))
  {
  }

  lemma TakeFate(s: State, e: nat)
    requires OnePlace(s.bus, s.sub, s.tabs)
    ensures SameFate(s, DoRelay(s, Take), e)
  {
    var s' := DoRelay(s, Take);
    if s' != s {
      assert forall i :: OnBus(s'.bus, i, e) <==> i >= 0 && OnBus(s.bus, i + 1, e);
      assert AtSub(s'.sub, e) <==> OnBus(s.bus, 0, e);
      if i :| OnBus(s.bus, i, e) {
        assert i > 0 ==> OnBus(s'.bus, i - 1, e);
      }
      if i :| OnBus(s'.bus, i, e) {
        assert OnBus(s.bus, i + 1, e);
      }
    }
  }

  lemma LookupFate(s: State, e: nat, dropped: bool)
    requires RoutingSafe(s) && Fate(s, e, dropped)
    requires AtSub(s.sub, e) ==> Replied(s.log, e)
    ensures Fate(DoRelay(s, Lookup), e, dropped || Drops(s, Relay(Lookup), e))
  {
  }

  /** A write that succeeds is an arrival. */
  lemma SendFate(s: State, ok: bool, e: nat, dropped: bool)
    requires RoutingSafe(s) && Fate(s, e, dropped)
    requires AtSub(s.sub, e) ==> Replied(s.log, e)
    ensures Fate(DoRelay(s, SendReply(ok)), e, dropped || Drops(s, Relay(SendReply(ok)), e))
  {
    var s' := DoRelay(s, SendReply(ok));
    if s.sub.Sending? {
      var c := s.sub.conn;
      var sent := s.tabs[c].sent;
      if s.sub.entry == e && !Drops(s, Relay(SendReply(ok)), e) {
        assert ReplyTo(s'.tabs, c, |sent|, e);
      } else {
        assert forall d, k :: ReplyTo(s'.tabs, d, k, e) <==> ReplyTo(s.tabs, d, k, e);
      }
    }
  }

  /** The other steps of the subscriber carry no reply. */
  lemma QuietRelayFate(s: State, step: SubStep, e: nat)
    requires step.FetchList? || step.CopyConns? || step.WriteTo? || step.FinishBroadcast?
    ensures SameFate(s, DoRelay(s, step), e)
  {
    var s' := DoRelay(s, step);
    assert forall d, k :: ReplyTo(s'.tabs, d, k, e) <==> ReplyTo(s.tabs, d, k, e);
  }

  lemma FateRelay(s: State, step: SubStep, e: nat, dropped: bool)
    requires RoutingSafe(s) && Fate(s, e, dropped)
    ensures Fate(DoRelay(s, step), e, dropped || Drops(s, Relay(step), e))
  {
    match step
    case Take => TakeFate(s, e);
    case Lookup => LookupFate(s, e, dropped);
    case SendReply(ok) => SendFate(s, ok, e, dropped);
    case _ => QuietRelayFate(s, step, e);
  }

  lemma FateNext(s: State, step: Step, s': State, e: nat, dropped: bool)
    requires QueueSafe(s) && RoutingSafe(s) && Fate(s, e, dropped) && s' == Next(s, step)
    ensures Fate(s', e, dropped || Drops(s, step, e))
  {
    match step
    case Work(w, work) =>
      if work.PublishReply? && Publishes(s, w, e) {
        NotYetReplied(s, w);
        PublishFate(s, w, e, work.heard);
      } else {
        WorkFate(s, w, work, e);
      }
    case Browse(c, tab) => BrowseFate(s, c, tab, e);
    case Relay(sub) => FateRelay(s, sub, e, dropped);
    case _ => OthersFate(s, step, e);
  }

  predicate DropsAt(steps: seq<Step>, k: nat, e: nat)
  {
    k < |steps| && Drops(Run(steps[..k]), steps[k], e)
  }

  lemma DropsEarlier(steps: seq<Step>, e: nat)
    requires |steps| > 0
    ensures var n := |steps| - 1;
            (exists k :: DropsAt(steps, k, e)) <==> (exists k :: DropsAt(steps[..n], k, e)) || DropsAt(steps, n, e)
  {
    var n := |steps| - 1;
    forall k: nat | k < n ensures DropsAt(steps, k, e) <==> DropsAt(steps[..n], k, e) {
      assert steps[..n][..k] == steps[..k];
    }
  }

  lemma {:induction false} FateOf(steps: seq<Step>, e: nat, s: State)
    requires s == Run(steps)
    ensures Fate(s, e, exists k :: DropsAt(steps, k, e))
  {
    if |steps| > 0 {
      var n := |steps| - 1;
      var before := Run(steps[..n]);
      FateOf(steps[..n], e, before);
      QueueAlwaysSafe(steps[..n]);
      RoutingAlwaysSafe(steps[..n]);
      FateNext(before, steps[n], s, e, exists k :: DropsAt(steps[..n], k, e));
      DropsEarlier(steps, e);
    }
  }

  /** The connection that queued `e` has been sent this text as the reply. */
  ghost predicate HasReply(s: State, e: nat, text: string)
    requires e < |s.stream|
  {
    && s.stream[e].from.Some? && s.stream[e].from.value in s.tabs
    && ReplyFrame(text, e) in s.tabs[s.stream[e].from.value].sent
  }

  /**
   No reply vanishes: in every run, a published reply has been written to the connection that asked,
   or it is still on its way, or a step dropped it, because the gateway did not hear it, the
   session had no connection any more or the write failed; and just one of these.
   */
  lemma NoReplyVanishes(steps: seq<Step>, e: nat, text: string)
    requires PublishedText(Run(steps).log, e, text) && e < |Run(steps).stream|
    ensures var s := Run(steps);
            ExactlyOne(Travelling(s, e), HasReply(s, e, text), exists k :: DropsAt(steps, k, e))
  {
    var s := Run(steps);
    FateOf(steps, e, s);
    assert Replied(s.log, e);
    ArrivedMeansAnswered(steps, e, text);
  }

  lemma ArrivedMeansAnswered(steps: seq<Step>, e: nat, text: string)
    requires PublishedText(Run(steps).log, e, text) && e < |Run(steps).stream|
    ensures Arrived(Run(steps).tabs, e) <==> HasReply(Run(steps), e, text)
  {
    var s := Run(steps);
    RoutingAlwaysSafe(steps);
    QueueAlwaysSafe(steps);
    if c, k :| ReplyTo(s.tabs, c, k, e) {
      AnswersComeHome(s);
      assert ComesHome(s, c, k);
      OneText(s, e, s.tabs[c].sent[k].text, text);
    }
    if HasReply(s, e, text) {
      var c := s.stream[e].from.value;
      var k :| 0 <= k < |s.tabs[c].sent| && s.tabs[c].sent[k] == ReplyFrame(text, e);
      assert ReplyTo(s.tabs, c, k, e);
    }
  }

  lemma OneText(s: State, e: nat, text: string, text': string)
    requires QueueSafe(s) && e < |s.stream| && PublishedText(s.log, e, text) && PublishedText(s.log, e, text')
    ensures text == text'
  {
    var i :| ReplyAt(s.log, i, e) && s.log[i].text == text;
    var j :| ReplyAt(s.log, j, e) && s.log[j].text == text';
    assert InOrder(s.stream, AckedSet(s.group), s.log, e);
    MovesOnce(s.log, i, j, e, s.stream[e].sid);
  }
}
