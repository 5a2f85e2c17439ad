/**
 keda/websocket-gateway/hub.go as the object it is: a map of connections that four methods share.
 The critical sections change the map by the same functions as the steps of the Protocol module.
 */
module Hub {
  import opened Lex
  import opened Protocol
  import opened Wrappers

  /** A browser's socket: the frames it has been sent, and whether it still takes any. */
  class Socket {
    var sent: seq<Frame>
    var broken: bool

    constructor ()
      ensures sent == [] && !broken
    {
      sent, broken := [], false;
    }

    /** wsjson.Write; `ok` is whether the network cooperates. */
    method Write(f: Frame, ok: bool)
      modifies this
      ensures sent == if ok && !old(broken) then old(sent) + [f] else old(sent)
      ensures broken == (old(broken) || !ok)
    {
      if ok && !broken {
        sent := sent + [f];
      } else {
        broken := true;
      }
    }
  }

  /** What one write leaves on a socket: the frame, or a broken socket and nothing more. */
  ghost predicate WrittenOnce(sent: seq<Frame>, broken: bool, sent': seq<Frame>, broken': bool, f: Frame, ok: bool)
  {
    if ok && !broken then sent' == sent + [f] && !broken' else sent' == sent && broken'
  }

  // ---- histories of the map ----

  /** A critical section that changes the map. */
  datatype MapOp<C> = Enter(sid: string, c: C) | Exit(sid: string)

  function Apply<C>(conns: map<string, C>, op: MapOp<C>): map<string, C>
  {
    match op
    case Enter(sid, c) => Register(conns, sid, c)
    case Exit(sid) => Unregister(conns, sid)
  }

  function After<C>(conns: map<string, C>, ops: seq<MapOp<C>>): map<string, C>
  {
    if |ops| == 0 then conns else Apply(After(conns, ops[..|ops| - 1]), ops[|ops| - 1])
  }

  predicate LastAbout<C>(ops: seq<MapOp<C>>, i: int, sid: string)
  {
    0 <= i < |ops| && ops[i].sid == sid && forall j :: i < j < |ops| ==> ops[j].sid != sid
  }

  /**
   After any registrations and unregistrations, a session's lookup finds the connection of its last
   registration, if it was not unregistered since, and nothing otherwise.
   */
  lemma {:induction false} LookupIsLatest<C>(ops: seq<MapOp<C>>, sid: string)
    ensures sid in After(map[], ops) <==> exists i :: LastAbout(ops, i, sid) && ops[i].Enter?
    ensures forall i :: LastAbout(ops, i, sid) && ops[i].Enter? ==> After(map[], ops)[sid] == ops[i].c
  {
    if |ops| > 0 {
      var n := |ops| - 1;
      LookupIsLatest(ops[..n], sid);
      if ops[n].sid == sid {
        assert LastAbout(ops, n, sid);
        assert forall i :: LastAbout(ops, i, sid) ==> i == n;
      } else {
        forall i ensures LastAbout(ops, i, sid) <==> LastAbout(ops[..n], i, sid) {
          assert LastAbout(ops[..n], i, sid) ==> forall j :: i < j < n ==> ops[..n][j].sid == ops[j].sid;
          assert LastAbout(ops, i, sid) ==> forall j :: i < j < n ==> ops[..n][j] == ops[j];
        }
      }
    }
  }

  /** Session ids are fresh, so no connection is registered twice. */
  ghost predicate NobodyTwice<C>(conns: map<string, C>)
  {
    forall s, t :: s in conns && t in conns && conns[s] == conns[t] ==> s == t
  }

  /** The connections that enter are new. */
  ghost predicate AllNew<C>(ops: seq<MapOp<C>>, conns: map<string, C>)
  {
    && (forall i :: 0 <= i < |ops| && ops[i].Enter? ==> ops[i].c !in conns.Values)
    && (forall i, j :: 0 <= i < j < |ops| && ops[i].Enter? && ops[j].Enter? ==> ops[i].c != ops[j].c)
  }

  lemma {:induction false} WhoIsThere<C>(conns: map<string, C>, ops: seq<MapOp<C>>)
    ensures forall c :: c in After(conns, ops).Values ==>
              c in conns.Values || exists i :: 0 <= i < |ops| && ops[i].Enter? && ops[i].c == c
  {
    if |ops| > 0 {
      var n := |ops| - 1;
      WhoIsThere(conns, ops[..n]);
      var before := After(conns, ops[..n]);
      forall c | c in After(conns, ops).Values
        ensures c in conns.Values || exists i :: 0 <= i < |ops| && ops[i].Enter? && ops[i].c == c
      {
        if c in before.Values {
          if c !in conns.Values {
            var i :| 0 <= i < n && ops[..n][i].Enter? && ops[..n][i].c == c;
            assert ops[i].c == c;
          }
        } else {
          assert ops[n].Enter? && ops[n].c == c;
        }
      }
    }
  }

  class Hub {
    var conns: map<string, Socket>

    ghost predicate Valid()
      reads this
    {
      NobodyTwice(conns)
    }

    constructor ()
      ensures Valid() && conns == map[]
    {
      conns := map[];
    }

    /** What the part of sendTo that holds the lock finds. */
    function Lookup(sid: string): Option<Socket>
      reads this
    {
      if sid in conns then Some(conns[sid]) else None
    }

    method RegisterConn(sid: string, c: Socket)
      requires Valid() && c !in conns.Values
      modifies this
      ensures Valid() && Lookup(sid) == Some(c)
      ensures forall t :: t != sid ==> Lookup(t) == old(Lookup(t))
    {
      assert forall s :: s in conns ==> conns[s] in conns.Values;
      conns := conns[sid := c];
    }

    method UnregisterConn(sid: string)
      requires Valid()
      modifies this
      ensures Valid() && Lookup(sid) == None
      ensures forall t :: t != sid ==> Lookup(t) == old(Lookup(t))
    {
      conns := conns - {sid};
    }

    /** What other goroutines do to the map. */
    method Interfere(ops: seq<MapOp<Socket>>)
      requires Valid() && AllNew(ops, conns)
      modifies this
      ensures Valid() && conns == After(old(conns), ops)
    {
      for i := 0 to |ops|
        invariant Valid() && conns == After(old(conns), ops[..i])
      {
        WhoIsThere(old(conns), ops[..i]);
        label Before:
        match ops[i] {
          case Enter(sid, c) => RegisterConn(sid, c);
          case Exit(sid) => UnregisterConn(sid);
        }
        ghost var next := Apply(old@Before(conns), ops[i]);
        forall t ensures (t in conns <==> t in next) && (t in conns ==> conns[t] == next[t]) {
          assert t != ops[i].sid ==> Lookup(t) == old@Before(Lookup(t));
          assert Lookup(ops[i].sid) == if ops[i].Enter? then Some(ops[i].c) else None;
        }
        assert ops[..i + 1][..i] == ops[..i];
      }
      assert ops[..|ops|] == ops;
    }

    /**
     sendTo: the write comes after the lock is released, with anything in between. At most the one
     socket found receives the frame, once, and nobody else does.
     */
    method SendTo(sid: string, f: Frame, ok: bool, between: seq<MapOp<Socket>>)
      requires Valid() && AllNew(between, conns)
      modifies this, conns.Values
      ensures Valid() && conns == After(old(conns), between)
      ensures old(Lookup(sid)).Some? ==> var c := old(Lookup(sid)).value;
                && (ok && !old(c.broken) ==> c.sent == old(c.sent) + [f] && !c.broken)
                && (!ok || old(c.broken) ==> c.sent == old(c.sent) && c.broken)
      ensures forall c :: c in old(conns.Values) && Some(c) != old(Lookup(sid)) ==> unchanged(c)
    {
      var c := Lookup(sid);
      Interfere(between);
      if c.Some? {
        c.value.Write(f, ok);
      }
    }

    /** The part of broadcast that holds the lock: every socket once, in some order. */
    method Copy() returns (sockets: seq<Socket>)
      requires Valid()
      ensures NoDuplicates(sockets)
      ensures forall c :: c in sockets <==> c in conns.Values
    {
      sockets := [];
      var left := conns.Keys;
      while |left| > 0
        invariant left <= conns.Keys && NoDuplicates(sockets)
        invariant forall i :: 0 <= i < |sockets| ==>
                    exists sid :: sid in conns && sid !in left && conns[sid] == sockets[i]
        invariant forall sid :: sid in conns ==> sid in left || conns[sid] in sockets
        decreases |left|
      {
        var sid :| sid in left;
        sockets := sockets + [conns[sid]];
        left := left - {sid};
      }
    }

    /**
     broadcast: every socket registered at the copy is written to exactly once, also if it leaves
     before its turn; those that register after the copy are not written to. `sockets` is the order
     of the writes, and ok(i) whether the network cooperates with the i-th.
     */
    method Broadcast(f: Frame, ok: nat -> bool, between: seq<MapOp<Socket>>) returns (sockets: seq<Socket>)
      requires Valid() && AllNew(between, conns)
      modifies this, conns.Values
      ensures Valid() && conns == After(old(conns), between)
      ensures NoDuplicates(sockets) && forall c :: c in sockets <==> c in old(conns.Values)
      ensures forall i :: 0 <= i < |sockets| ==> var c := sockets[i];
                && c in old(conns.Values)
                && (ok(i) && !old(c.broken) ==> c.sent == old(c.sent) + [f] && !c.broken)
                && (!ok(i) || old(c.broken) ==> c.sent == old(c.sent) && c.broken)
    {
      sockets := Copy();
      Interfere(between);
      assert forall i :: 0 <= i < |sockets| ==> sockets[i] in sockets;
      WriteAll(sockets, f, ok);
    }
  }

  /** The writes of a broadcast, one after the other. */
  method WriteAll(sockets: seq<Socket>, f: Frame, ok: nat -> bool)
    requires NoDuplicates(sockets)
    modifies set c | c in sockets
    ensures forall i :: 0 <= i < |sockets| ==> var c := sockets[i];
              WrittenOnce(old(c.sent), old(c.broken), c.sent, c.broken, f, ok(i))
  {
    for i := 0 to |sockets|
      invariant forall j :: 0 <= j < i ==>
                  WrittenOnce(old(sockets[j].sent), old(sockets[j].broken),
                              sockets[j].sent, sockets[j].broken, f, ok(j))
      invariant forall j :: i <= j < |sockets| ==>
                  sockets[j].sent == old(sockets[j].sent) && sockets[j].broken == old(sockets[j].broken)
    {
      sockets[i].Write(f, ok(i));
    }
  }
}
