/**
 agent/backend/store.go: chat sessions and their messages in two flat buckets, recovered by prefix
 scans. `chats` is the state the buckets stand for: a map from session id to metadata and message log.
 */
module SessionStore {
  import opened Bolt
  import opened Keys
  import opened Lex
  import opened Wrappers
  import Sorting
  import opened Timestamps

  const DEFAULT_SESSION_TITLE := "New session"

  datatype Session = Session(id: Bytes, created: Bytes, updated: Bytes, title: string)

  datatype Message = Message(session: Bytes, number: nat, role: string, content: string, created: Bytes)

  datatype Error = NotFound

  /** One session with its messages, oldest first. */
  datatype Chat = Chat(meta: Session, log: seq<Message>)

  type Chats = map<Bytes, Chat>

  ghost predicate IsTimestamp(s: Bytes)
  {
    exists t: Instant :: t.Valid() && Format(t) == s
  }

  lemma NowIsTimestamp(now: Instant)
    requires now.Valid()
    ensures IsTimestamp(Format(now))
  {
  }

  /** Message i of a session's log says so itself. */
  predicate Numbered(id: Bytes, log: seq<Message>)
  {
    forall i :: 0 <= i < |log| ==> log[i].session == id && log[i].number == i
  }

  ghost predicate WellFormed(id: Bytes, chat: Chat)
  {
    ColonFree(id) && chat.meta.id == id && Numbered(id, chat.log)
  }

  ghost predicate AllWellFormed(chats: Chats)
  {
    forall id :: id in chats ==> WellFormed(id, chats[id])
  }

  /** The sessions bucket holds the metadata of the chats and nothing else. */
  ghost predicate HoldsSessions(sessions: map<Bytes, Session>, chats: Chats)
  {
    && (forall id :: id in chats ==> SessionKey(id) in sessions && sessions[SessionKey(id)] == chats[id].meta)
    && (forall k :: k in sessions ==> k == SessionKey(sessions[k].id) && sessions[k].id in chats)
  }

  /** The messages bucket holds the logs of the chats and nothing else. */
  ghost predicate HoldsMessages(messages: map<Bytes, Message>, chats: Chats)
  {
    && (forall id, i :: id in chats && 0 <= i < |chats[id].log| ==>
          MessageKey(id, i) in messages && messages[MessageKey(id, i)] == chats[id].log[i])
    && (forall k :: k in messages ==>
          var m := messages[k];
          k == MessageKey(m.session, m.number) && m.session in chats && m.number < |chats[m.session].log|)
  }

  ghost predicate Refines(sessions: map<Bytes, Session>, messages: map<Bytes, Message>, chats: Chats)
  {
    AllWellFormed(chats) && HoldsSessions(sessions, chats) && HoldsMessages(messages, chats)
  }

  lemma LookupFindsSession(sessions: map<Bytes, Session>, messages: map<Bytes, Message>, chats: Chats, id: Bytes)
    requires Refines(sessions, messages, chats)
    ensures SessionKey(id) in sessions <==> id in chats
    ensures id in chats ==> sessions[SessionKey(id)] == chats[id].meta
  {
    if SessionKey(id) in sessions {
      SessionKeyInjective(id, sessions[SessionKey(id)].id);
    }
  }

  lemma LogIsDetermined(messages: map<Bytes, Message>, id: Bytes, a: Chats, b: Chats)
    requires AllWellFormed(a) && HoldsMessages(messages, a) && AllWellFormed(b) && HoldsMessages(messages, b)
    requires id in a && id in b
    ensures |a[id].log| <= |b[id].log| && forall i :: 0 <= i < |a[id].log| ==> a[id].log[i] == b[id].log[i]
  {
    var s, t := a[id].log, b[id].log;
    var next := MessageKey(id, |t|);
    assert |t| < |s| ==> next in messages;
    forall i | 0 <= i < |s| ensures s[i] == t[i] {
      assert messages[MessageKey(id, i)] == s[i];
    }
  }

  /** The buckets determine the chats they stand for. */
  lemma RefinementIsUnique(sessions: map<Bytes, Session>, messages: map<Bytes, Message>, a: Chats, b: Chats)
    ensures Refines(sessions, messages, a) && Refines(sessions, messages, b) ==> a == b
  {
    if Refines(sessions, messages, a) && Refines(sessions, messages, b) {
      forall id ensures id in a <==> id in b {
        assert SessionKey(id) in sessions <==> id in a by { LookupFindsSession(sessions, messages, a, id); }
        assert SessionKey(id) in sessions <==> id in b by { LookupFindsSession(sessions, messages, b, id); }
      }
      forall id | id in a ensures a[id] == b[id] {
        LogIsDetermined(messages, id, a, b);
        LogIsDetermined(messages, id, b, a);
        assert a[id].log == b[id].log;
      }
    }
  }

  /** No message outlives its session. */
  lemma NoOrphans(sessions: map<Bytes, Session>, messages: map<Bytes, Message>, chats: Chats, k: Bytes)
    requires Refines(sessions, messages, chats) && k in messages
    ensures SessionKey(messages[k].session) in sessions
  {
    assert messages[k].session in chats;
  }

  // ---- the abstract operations ----

  function Created(chats: Chats, s: Session): Chats
  {
    chats[s.id := Chat(s, if s.id in chats then chats[s.id].log else [])]
  }

  function Appended(chats: Chats, m: Message): Chats
    requires m.session in chats
  {
    var chat := chats[m.session];
    chats[m.session := Chat(chat.meta.(updated := m.created), chat.log + [m])]
  }

  function Removed(chats: Chats, id: Bytes): Chats
  {
    chats - {id}
  }

  // ---- what a scan of one session's prefix sees ----

  function LogKeys(id: Bytes, n: nat): seq<Bytes>
  {
    seq(n, i requires 0 <= i => MessageKey(id, i))
  }

  lemma LogKeysDistinct(id: Bytes, n: nat)
    requires ColonFree(id)
    ensures NoDuplicates(LogKeys(id, n))
  {
    forall i, j | 0 <= i < j < n ensures LogKeys(id, n)[i] != LogKeys(id, n)[j] {
      MessageKeyInjective(id, i, id, j);
    }
  }

  /** A scan for any string finds the keys of the messages of that session. */
  lemma ScanFindsSession(messages: Bucket<Message>, chats: Chats, id: Bytes)
    requires messages.Valid() && AllWellFormed(chats) && HoldsMessages(messages.vals, chats)
    ensures forall k :: k in Matching(messages.keys, MessagePrefix(id)) <==>
                        k in messages.vals && messages.vals[k].session == id
  {
    MatchingElements(messages.keys, MessagePrefix(id));
    forall k | k in messages.vals ensures HasPrefix(k, MessagePrefix(id)) <==> messages.vals[k].session == id {
      PrefixBelongsToOneSession(messages.vals[k].session, messages.vals[k].number, id);
    }
  }

  lemma ScanFindsNothing(messages: Bucket<Message>, chats: Chats, id: Bytes)
    requires messages.Valid() && AllWellFormed(chats) && HoldsMessages(messages.vals, chats)
    requires id !in chats
    ensures Matching(messages.keys, MessagePrefix(id)) == []
  {
    var found := Matching(messages.keys, MessagePrefix(id));
    ScanFindsSession(messages, chats, id);
    MatchingElements(messages.keys, MessagePrefix(id));
    AscendingHasNoDuplicates(found);
    SameElementsSameMultiset(found, []);
  }

  /** The keys found for a live session are its log's keys, one for each message. */
  lemma ScanFindsLog(messages: Bucket<Message>, chats: Chats, id: Bytes)
    requires messages.Valid() && AllWellFormed(chats) && HoldsMessages(messages.vals, chats)
    requires id in chats
    ensures var found, keys := Matching(messages.keys, MessagePrefix(id)), LogKeys(id, |chats[id].log|);
            |found| == |keys| && multiset(found) == multiset(keys) && forall k :: k in found <==> k in keys
  {
    var found, n := Matching(messages.keys, MessagePrefix(id)), |chats[id].log|;
    ScanFindsSession(messages, chats, id);
    forall k ensures k in found <==> k in LogKeys(id, n) {
      if k in found {
        assert LogKeys(id, n)[messages.vals[k].number] == k;
      }
    }
    LogKeysDistinct(id, n);
    MatchingElements(messages.keys, MessagePrefix(id));
    AscendingHasNoDuplicates(found);
    SameElementsSameMultiset(found, LogKeys(id, n));
  }

  /** Within the padding the scan is in append order; one message beyond it, it no longer is. */
  lemma ScanOrder(messages: Bucket<Message>, chats: Chats, id: Bytes)
    requires messages.Valid() && AllWellFormed(chats) && HoldsMessages(messages.vals, chats)
    requires id in chats
    ensures var found := Matching(messages.keys, MessagePrefix(id));
            found == LogKeys(id, |chats[id].log|) <==> |chats[id].log| <= MAX_PADDED_SEQ + 1
  {
    var n := |chats[id].log|;
    var found, keys := Matching(messages.keys, MessagePrefix(id)), LogKeys(id, n);
    ScanFindsLog(messages, chats, id);
    MatchingElements(messages.keys, MessagePrefix(id));
    if n <= MAX_PADDED_SEQ + 1 {
      forall i, j | 0 <= i < j < n ensures Less(keys[i], keys[j]) {
        KeyOrderIsSeqOrder(id, i, j);
      }
      AscendingIsUnique(found, keys);
    } else if found == keys {
      KeyOrderBreaksAfterPadding(id);
      LessAsymmetric(keys[MAX_PADDED_SEQ + 1], keys[1_000_000_001]);
    }
  }

  // ---- the bucket loops ----

  /** `r` is what is stored under `keys`, in their order. */
  predicate StoredUnder<V(==)>(keys: seq<Bytes>, vals: map<Bytes, V>, r: seq<V>)
  {
    |r| == |keys| && forall i :: 0 <= i < |r| ==> keys[i] in vals && r[i] == vals[keys[i]]
  }

  lemma KeyIsStored<V>(b: Bucket<V>, pos: nat)
    requires b.Valid() && pos < |b.keys|
    ensures b.keys[pos] in b.vals
  {
    assert b.keys[pos] in KeySet(b.keys);
  }

  lemma StoredUnderMore<V>(keys: seq<Bytes>, vals: map<Bytes, V>, r: seq<V>, k: Bytes)
    requires StoredUnder(keys, vals, r) && k in vals
    ensures StoredUnder(keys + [k], vals, r + [vals[k]])
  {
  }

  /** ListSessions: Bucket.ForEach. */
  method AllValues(b: Bucket<Session>) returns (r: seq<Session>)
    requires b.Valid()
    ensures StoredUnder(b.keys, b.vals, r)
  {
    r := [];
    for pos := 0 to |b.keys|
      invariant StoredUnder(b.keys[..pos], b.vals, r)
    {
      KeyIsStored(b, pos);
      r := r + [b.vals[b.keys[pos]]];
    }
  }

  /** ListMessages: the values under a prefix. */
  method ReadPrefix(b: Bucket<Message>, prefix: Bytes) returns (r: seq<Message>)
    requires b.Valid()
    ensures StoredUnder(Matching(b.keys, prefix), b.vals, r)
  {
    var first := Seek(b.keys, prefix);
    var pos := first;
    ghost var visited: seq<Bytes> := [];
    r := [];
    while pos < |b.keys| && HasPrefix(b.keys[pos], prefix)
      invariant Scanning(b.keys, prefix, pos) && visited == b.keys[first..pos]
      invariant StoredUnder(visited, b.vals, r)
    {
      KeyIsStored(b, pos);
      StoredUnderMore(visited, b.vals, r, b.keys[pos]);
      visited := visited + [b.keys[pos]];
      r := r + [b.vals[b.keys[pos]]];
      pos := pos + 1;
    }
    ScanVisitsMatching(b.keys, prefix, pos);
  }

  /** AppendMessage: how many keys there are under a prefix. */
  method CountPrefix(b: Bucket<Message>, prefix: Bytes) returns (n: nat)
    requires b.Valid()
    ensures n == |Matching(b.keys, prefix)|
  {
    n := 0;
    var pos := Seek(b.keys, prefix);
    while pos < |b.keys| && HasPrefix(b.keys[pos], prefix)
      invariant Scanning(b.keys, prefix, pos) && n == pos - Seek(b.keys, prefix)
    {
      n := n + 1;
      pos := pos + 1;
    }
    ScanVisitsMatching(b.keys, prefix, pos);
  }

  /** DeleteSession, first loop: the keys under a prefix, copied before anything is deleted. */
  method CollectPrefix(b: Bucket<Message>, prefix: Bytes) returns (keys: seq<Bytes>)
    requires b.Valid()
    ensures keys == Matching(b.keys, prefix)
  {
    var first := Seek(b.keys, prefix);
    var pos := first;
    keys := [];
    while pos < |b.keys| && HasPrefix(b.keys[pos], prefix)
      invariant Scanning(b.keys, prefix, pos) && keys == b.keys[first..pos]
    {
      keys := keys + [b.keys[pos]];
      pos := pos + 1;
    }
    ScanVisitsMatching(b.keys, prefix, pos);
  }

  /** DeleteSession, second loop. */
  method DeleteKeys(b: Bucket<Message>, keys: seq<Bytes>) returns (r: Bucket<Message>)
    requires b.Valid()
    ensures r.Valid() && r.vals == b.vals - (set k | k in keys)
  {
    r := b;
    for i := 0 to |keys|
      invariant r.Valid() && r.vals == b.vals - (set k | k in keys[..i])
    {
      r := r.Delete(keys[i]);
      assert keys[..i + 1] == keys[..i] + [keys[i]];
    }
    assert keys[..|keys|] == keys;
  }

  // ---- the order of ListSessions ----

  predicate UpdatedAfter(s: Session, t: Session)
  {
    Less(t.updated, s.updated)
  }

  lemma UpdatedAfterIsWeakOrder()
    ensures Sorting.StrictWeakOrder(UpdatedAfter)
  {
    forall x: Session, y: Session | UpdatedAfter(x, y) ensures !UpdatedAfter(y, x) {
      LessAsymmetric(y.updated, x.updated);
    }
    forall x: Session, y: Session, z: Session | UpdatedAfter(x, z) ensures UpdatedAfter(x, y) || UpdatedAfter(y, z) {
      LessTotal(x.updated, y.updated);
      if Less(x.updated, y.updated) {
        LessTransitive(z.updated, x.updated, y.updated);
      }
    }
  }

  /** Every session's `updated` is a timestamp nowRFC3339 wrote. */
  ghost predicate Stamped(chats: Chats)
  {
    forall id :: id in chats ==> IsTimestamp(chats[id].meta.updated)
  }

  ghost function TimeOf(s: Bytes): (t: Instant)
    requires IsTimestamp(s)
    ensures t.Valid() && Format(t) == s
  {
    var t: Instant :| t.Valid() && Format(t) == s;
    t
  }

  /** What the comment on ListSessions promises. */
  ghost predicate MostRecentFirst(r: seq<Session>)
    requires forall s :: s in r ==> IsTimestamp(s.updated)
  {
    forall i, j :: 0 <= i < j < |r| ==> !Before(TimeOf(r[i].updated), TimeOf(r[j].updated))
  }

  /** Same whole second, and the printed fraction of `s` is a proper prefix of that of `t`. */
  ghost predicate Clash(s: Session, t: Session)
    requires IsTimestamp(s.updated) && IsTimestamp(t.updated)
  {
    var a, b := TimeOf(s.updated), TimeOf(t.updated);
    SameSecond(a, b) && ProperPrefix(Digits(a.nano), Digits(b.nano))
  }

  /** The earlier of two sessions is listed first exactly when their timestamps clash. */
  lemma ClashDecidesOrder(s: Session, t: Session)
    requires IsTimestamp(s.updated) && IsTimestamp(t.updated)
    ensures Clash(s, t) <==> Before(TimeOf(s.updated), TimeOf(t.updated)) && UpdatedAfter(s, t)
    ensures Before(TimeOf(s.updated), TimeOf(t.updated)) ==> UpdatedAfter(s, t) || UpdatedAfter(t, s)
  {
    var a, b := TimeOf(s.updated), TimeOf(t.updated);
    if Clash(s, t) {
      ProperPrefixIsEarlier(a.nano, b.nano);
    }
    if Before(a, b) {
      StringOrderVersusTime(a, b);
    }
  }

  ghost predicate NoClash(chats: Chats)
    requires Stamped(chats)
  {
    forall s, t :: s in chats && t in chats ==> !Clash(chats[s].meta, chats[t].meta)
  }

  /** The sessions of the chats, each once. */
  ghost predicate ListsAll(r: seq<Session>, chats: Chats)
  {
    && NoDuplicates(r)
    && forall s :: s in r <==> s.id in chats && chats[s.id].meta == s
  }

  lemma ClashIsListed(r: seq<Session>, chats: Chats, s: Bytes, t: Bytes)
    requires Stamped(chats) && ListsAll(r, chats) && Sorting.Sorted(r, UpdatedAfter)
    requires s in chats && t in chats && chats[s].meta.id == s && chats[t].meta.id == t
    requires Before(TimeOf(chats[s].meta.updated), TimeOf(chats[t].meta.updated))
    requires UpdatedAfter(chats[s].meta, chats[t].meta)
    ensures exists i, j :: 0 <= i < j < |r| && Before(TimeOf(r[i].updated), TimeOf(r[j].updated))
  {
    var i :| 0 <= i < |r| && r[i] == chats[s].meta;
    var j :| 0 <= j < |r| && r[j] == chats[t].meta;
    LessIrreflexive(chats[s].meta.updated);
    assert i < j;
  }

  lemma ClashMisplaces(r: seq<Session>, chats: Chats)
    requires AllWellFormed(chats) && Stamped(chats) && ListsAll(r, chats) && Sorting.Sorted(r, UpdatedAfter)
    requires !NoClash(chats)
    ensures !MostRecentFirst(r)
  {
    var s, t :| s in chats && t in chats && Clash(chats[s].meta, chats[t].meta);
    ClashDecidesOrder(chats[s].meta, chats[t].meta);
    ClashIsListed(r, chats, s, t);
  }

  lemma MisplacedIsClash(r: seq<Session>, chats: Chats, i: nat, j: nat)
    requires Stamped(chats) && ListsAll(r, chats) && Sorting.Sorted(r, UpdatedAfter)
    requires i < j < |r| && IsTimestamp(r[i].updated) && IsTimestamp(r[j].updated)
    requires Before(TimeOf(r[i].updated), TimeOf(r[j].updated))
    ensures r[i].id in chats && r[j].id in chats && Clash(chats[r[i].id].meta, chats[r[j].id].meta)
  {
    assert r[i] in r && r[j] in r;
    ClashDecidesOrder(r[i], r[j]);
  }

  /** The list is most recent first if and only if no two stored timestamps clash. */
  lemma MostRecentFirstUnlessClash(r: seq<Session>, chats: Chats)
    requires AllWellFormed(chats) && Stamped(chats) && ListsAll(r, chats) && Sorting.Sorted(r, UpdatedAfter)
    ensures MostRecentFirst(r) <==> NoClash(chats)
  {
    if i, j :| 0 <= i < j < |r| && Before(TimeOf(r[i].updated), TimeOf(r[j].updated)) {
      MisplacedIsClash(r, chats, i, j);
    }
    if !NoClash(chats) {
      ClashMisplaces(r, chats);
    }
  }

  /** The two buckets are a faithful copy of the chats. */
  ghost predicate Represents(sessions: Bucket<Session>, messages: Bucket<Message>, chats: Chats)
  {
    && sessions.Valid() && messages.Valid()
    && Refines(sessions.vals, messages.vals, chats)
    && Stamped(chats)
  }

  // ---- why each operation keeps the refinement ----

  lemma CreateHoldsSessions(sessions: map<Bytes, Session>, chats: Chats, s: Session)
    requires HoldsSessions(sessions, chats)
    ensures HoldsSessions(sessions[SessionKey(s.id) := s], Created(chats, s))
  {
    forall id | id in chats ensures SessionKey(id) == SessionKey(s.id) <==> id == s.id {
      SessionKeyInjective(id, s.id);
    }
  }

  lemma CreateHoldsMessages(messages: map<Bytes, Message>, chats: Chats, s: Session)
    requires HoldsMessages(messages, chats)
    ensures HoldsMessages(messages, Created(chats, s))
  {
  }

  lemma CreateRefines(sessions: map<Bytes, Session>, messages: map<Bytes, Message>, chats: Chats, s: Session)
    requires Refines(sessions, messages, chats) && ColonFree(s.id)
    ensures Refines(sessions[SessionKey(s.id) := s], messages, Created(chats, s))
  {
    CreateHoldsSessions(sessions, chats, s);
    CreateHoldsMessages(messages, chats, s);
  }

  lemma AppendHoldsSessions(sessions: map<Bytes, Session>, chats: Chats, m: Message)
    requires AllWellFormed(chats) && HoldsSessions(sessions, chats) && m.session in chats
    ensures HoldsSessions(sessions[SessionKey(m.session) := chats[m.session].meta.(updated := m.created)],
                          Appended(chats, m))
  {
    forall id | id in chats ensures SessionKey(id) == SessionKey(m.session) <==> id == m.session {
      SessionKeyInjective(id, m.session);
    }
  }

  /** The counted sequence number is fresh: the append overwrites no message. */
  lemma AppendHoldsMessages(messages: map<Bytes, Message>, chats: Chats, m: Message)
    requires AllWellFormed(chats) && HoldsMessages(messages, chats)
    requires m.session in chats && m.number == |chats[m.session].log|
    ensures MessageKey(m.session, m.number) !in messages
    ensures HoldsMessages(messages[MessageKey(m.session, m.number) := m], Appended(chats, m))
  {
    var key := MessageKey(m.session, m.number);
    var after, chats' := messages[key := m], Appended(chats, m);
    if key in messages {
      MessageKeyInjective(messages[key].session, messages[key].number, m.session, m.number);
    }
    forall id, i | id in chats' && 0 <= i < |chats'[id].log|
      ensures MessageKey(id, i) in after && after[MessageKey(id, i)] == chats'[id].log[i]
    {
      MessageKeyInjective(id, i, m.session, m.number);
      if id in chats && i < |chats[id].log| {
        assert chats'[id].log[i] == chats[id].log[i];
      }
    }
  }

  lemma AppendStaysWellFormed(chats: Chats, m: Message)
    requires AllWellFormed(chats) && m.session in chats && m.number == |chats[m.session].log|
    ensures AllWellFormed(Appended(chats, m))
  {
  }

  lemma AppendStaysStamped(chats: Chats, m: Message)
    requires Stamped(chats) && m.session in chats && IsTimestamp(m.created)
    ensures Stamped(Appended(chats, m))
  {
    forall id | id in Appended(chats, m) ensures IsTimestamp(Appended(chats, m)[id].meta.updated) {
      if id != m.session {
        assert IsTimestamp(chats[id].meta.updated);
      }
    }
  }

  lemma AppendRefines(sessions: Bucket<Session>, messages: Bucket<Message>, chats: Chats, m: Message,
                      sessions': Bucket<Session>, messages': Bucket<Message>)
    requires Represents(sessions, messages, chats) && IsTimestamp(m.created)
    requires m.session in chats && m.number == |chats[m.session].log|
    requires sessions'.Valid() && messages'.Valid()
    requires sessions'.vals == sessions.vals[SessionKey(m.session) := chats[m.session].meta.(updated := m.created)]
    requires messages'.vals == messages.vals[MessageKey(m.session, m.number) := m]
    ensures Represents(sessions', messages', Appended(chats, m))
  {
    AppendStaysWellFormed(chats, m);
    AppendHoldsSessions(sessions.vals, chats, m);
    AppendHoldsMessages(messages.vals, chats, m);
    AppendStaysStamped(chats, m);
  }

  /** Counting a session's keys counts its messages. */
  lemma LogIsCounted(messages: Bucket<Message>, chats: Chats, id: Bytes)
    requires messages.Valid() && AllWellFormed(chats) && HoldsMessages(messages.vals, chats) && id in chats
    ensures |Matching(messages.keys, MessagePrefix(id))| == |chats[id].log|
  {
    ScanFindsLog(messages, chats, id);
  }

  lemma DeleteHoldsSessions(sessions: map<Bytes, Session>, chats: Chats, id: Bytes)
    requires HoldsSessions(sessions, chats)
    ensures HoldsSessions(sessions - {SessionKey(id)}, Removed(chats, id))
  {
    forall other | other in chats ensures SessionKey(other) == SessionKey(id) <==> other == id {
      SessionKeyInjective(other, id);
    }
  }

  lemma DeleteHoldsMessages(messages: map<Bytes, Message>, chats: Chats, id: Bytes, keys: seq<Bytes>)
    requires AllWellFormed(chats) && HoldsMessages(messages, chats)
    requires forall k :: k in keys <==> k in messages && messages[k].session == id
    ensures HoldsMessages(messages - (set k | k in keys), Removed(chats, id))
  {
  }

  lemma DeleteRefines(sessions: Bucket<Session>, messages: Bucket<Message>, chats: Chats, id: Bytes, keys: seq<Bytes>)
    requires messages.Valid() && Refines(sessions.vals, messages.vals, chats)
    requires keys == Matching(messages.keys, MessagePrefix(id))
    ensures Refines(sessions.vals - {SessionKey(id)}, messages.vals - (set k | k in keys), Removed(chats, id))
  {
    ScanFindsSession(messages, chats, id);
    DeleteHoldsSessions(sessions.vals, chats, id);
    DeleteHoldsMessages(messages.vals, chats, id, keys);
  }

  lemma AllSessionsListed(sessions: Bucket<Session>, messages: map<Bytes, Message>, chats: Chats, all: seq<Session>)
    requires sessions.Valid() && Refines(sessions.vals, messages, chats)
    requires StoredUnder(sessions.keys, sessions.vals, all)
    ensures ListsAll(all, chats)
  {
    AscendingHasNoDuplicates(sessions.keys);
    forall i | 0 <= i < |all| ensures all[i].id in chats && chats[all[i].id].meta == all[i] {
      assert sessions.keys[i] in sessions.vals;
    }
    forall s: Session | s.id in chats && chats[s.id].meta == s ensures s in all {
      var i :| 0 <= i < |sessions.keys| && sessions.keys[i] == SessionKey(s.id);
      assert all[i] == s;
    }
    forall i, j | 0 <= i < j < |all| ensures all[i] != all[j] {
      assert sessions.keys[i] == SessionKey(all[i].id) && sessions.keys[j] == SessionKey(all[j].id);
    }
  }

  lemma PermutationListsAll(all: seq<Session>, r: seq<Session>, chats: Chats)
    requires ListsAll(all, chats) && multiset(r) == multiset(all)
    ensures ListsAll(r, chats)
  {
    forall s ensures s in r <==> s in all {
      assert s in multiset(r) <==> s in multiset(all);
    }
    forall i, j | 0 <= i < j < |r| ensures r[i] != r[j] {
      NoDuplicatesCount(all, r[i]);
      assert r == r[..i] + [r[i]] + r[i + 1..j] + [r[j]] + r[j + 1..];
    }
  }

  /** Values carry their key, so a list of values in log order was read in key order. */
  lemma FetchInOrder(found: seq<Bytes>, messages: map<Bytes, Message>, id: Bytes, r: seq<Message>)
    requires StoredUnder(found, messages, r) && Numbered(id, r)
    requires forall i :: 0 <= i < |r| ==> found[i] == MessageKey(id, r[i].number)
    ensures found == LogKeys(id, |r|)
  {
  }

  lemma FetchIsPermutation(found: seq<Bytes>, messages: map<Bytes, Message>, chats: Chats, id: Bytes, r: seq<Message>)
    requires AllWellFormed(chats) && HoldsMessages(messages, chats) && id in chats
    requires NoDuplicates(found) && forall k :: k in found <==> k in LogKeys(id, |chats[id].log|)
    requires StoredUnder(found, messages, r)
    ensures multiset(r) == multiset(chats[id].log)
    ensures forall i :: 0 <= i < |r| ==> found[i] == MessageKey(id, r[i].number)
  {
    var log, keys := chats[id].log, LogKeys(id, |chats[id].log|);
    forall i | 0 <= i < |found| ensures found[i] == MessageKey(id, r[i].number) && r[i] in log {
      assert found[i] in keys;
      var j :| 0 <= j < |keys| && keys[j] == found[i];
      assert r[i] == log[j];
    }
    forall m: Message | m in log ensures m in r {
      assert keys[m.number] in found;
      var i :| 0 <= i < |found| && found[i] == keys[m.number];
      assert r[i] == m;
    }
    SameElementsSameMultiset(r, log);
  }

  lemma FetchedLog(messages: Bucket<Message>, chats: Chats, id: Bytes, r: seq<Message>)
    requires messages.Valid() && AllWellFormed(chats) && HoldsMessages(messages.vals, chats)
    requires StoredUnder(Matching(messages.keys, MessagePrefix(id)), messages.vals, r)
    ensures id !in chats ==> r == []
    ensures id in chats ==> multiset(r) == multiset(chats[id].log)
    ensures id in chats ==> (r == chats[id].log <==> |chats[id].log| <= MAX_PADDED_SEQ + 1)
  {
    var found := Matching(messages.keys, MessagePrefix(id));
    if id !in chats {
      ScanFindsNothing(messages, chats, id);
    } else {
      ScanFindsLog(messages, chats, id);
      ScanOrder(messages, chats, id);
      MatchingElements(messages.keys, MessagePrefix(id));
      AscendingHasNoDuplicates(found);
      FetchIsPermutation(found, messages.vals, chats, id, r);
      if r == chats[id].log {
        FetchInOrder(found, messages.vals, id, r);
      }
    }
  }

  // ---- the transactions ----

  /** The body of AppendMessage's transaction: what it would leave in the two buckets. */
  method AppendTx(sessions: Bucket<Session>, messages: Bucket<Message>, ghost chats: Chats,
                  id: Bytes, role: string, content: string, now: Instant)
      returns (r: Result<Message, Error>, sessions': Bucket<Session>, messages': Bucket<Message>)
    requires Represents(sessions, messages, chats) && now.Valid()
    ensures id !in chats ==> r == Err(NotFound) && sessions' == sessions && messages' == messages
    ensures id in chats ==>
              && r == Ok(Message(id, |chats[id].log|, role, content, Format(now)))
              && Represents(sessions', messages', Appended(chats, r.value))
  {
    LookupFindsSession(sessions.vals, messages.vals, chats, id);
    var sv := sessions.Get(SessionKey(id));
    if sv.None? {
      return Err(NotFound), sessions, messages;
    }
    var s := sv.value;
    var n := CountPrefix(messages, MessagePrefix(id));
    LogIsCounted(messages, chats, id);
    var stamp := Format(now);
    NowIsTimestamp(now);
    var m := Message(id, n, role, content, stamp);
    messages' := messages.Put(MessageKey(id, n), m);
    sessions' := sessions.Put(SessionKey(id), s.(updated := stamp));
    AppendRefines(sessions, messages, chats, m, sessions', messages');
    r := Ok(m);
  }

  /** The body of DeleteSession's transaction. */
  method DeleteTx(sessions: Bucket<Session>, messages: Bucket<Message>, ghost chats: Chats, id: Bytes)
      returns (r: Result<(), Error>, sessions': Bucket<Session>, messages': Bucket<Message>)
    requires Represents(sessions, messages, chats)
    ensures r == if id in chats then Ok(()) else Err(NotFound)
    ensures Represents(sessions', messages', Removed(chats, id))
  {
    LookupFindsSession(sessions.vals, messages.vals, chats, id);
    if sessions.Get(SessionKey(id)).None? {
      assert Removed(chats, id) == chats;
      return Err(NotFound), sessions, messages;
    }
    sessions' := sessions.Delete(SessionKey(id));
    var keys := CollectPrefix(messages, MessagePrefix(id));
    messages' := DeleteKeys(messages, keys);
    DeleteRefines(sessions, messages, chats, id, keys);
    r := Ok(());
  }

  /** A bbolt file; a bucket is missing until it is first created. */
  datatype File = File(sessions: Option<Bucket<Session>>, messages: Option<Bucket<Message>>)

  /** CreateBucketIfNotExists. */
  function OrEmpty<V>(b: Option<Bucket<V>>): Bucket<V>
  {
    if b.Some? then b.value else Empty()
  }

  /** A new file stands for no chats at all, and for nothing else. */
  lemma NewFileIsEmpty(chats: Chats)
    ensures Represents(OrEmpty(None), OrEmpty(None), chats) <==> chats == map[]
  {
    if Represents(OrEmpty(None), OrEmpty(None), chats) {
      assert forall id :: id in chats ==> SessionKey(id) in OrEmpty<Session>(None).vals;
    }
  }

  class Store {
    var sessions: Bucket<Session>
    var messages: Bucket<Message>
    ghost var chats: Chats

    ghost predicate Valid()
      reads this
    {
      Represents(sessions, messages, chats)
    }

    /** openStore: buckets that exist are taken as they are, and the chats are what they stand for. */
    constructor (file: File, ghost kept: Chats)
      requires Represents(OrEmpty(file.sessions), OrEmpty(file.messages), kept)
      ensures Valid() && chats == kept
    {
      sessions := OrEmpty(file.sessions);
      messages := OrEmpty(file.messages);
      chats := kept;
    }

    method CreateSession(title: string, random: Option<seq<Octet>>, unixNano: int, now: Instant)
        returns (s: Session)
      requires Valid() && now.Valid()
      requires random.Some? ==> |random.value| == 16
      modifies this
      ensures Valid()
      ensures s == Session(NewId(random, unixNano), Format(now), Format(now),
                           if title == "" then DEFAULT_SESSION_TITLE else title)
      ensures chats == Created(old(chats), s)
      ensures s.id !in old(chats) ==> chats == old(chats)[s.id := Chat(s, [])]
    {
      var name := if title == "" then DEFAULT_SESSION_TITLE else title;
      var stamp := Format(now);
      NowIsTimestamp(now);
      s := Session(NewId(random, unixNano), stamp, stamp, name);
      NewIdIsUsable(random, unixNano);
      CreateRefines(sessions.vals, messages.vals, chats, s);
      sessions := sessions.Put(SessionKey(s.id), s);
      chats := Created(chats, s);
    }

    method ListSessions() returns (r: seq<Session>)
      requires Valid()
      ensures ListsAll(r, chats)
      ensures Sorting.Sorted(r, UpdatedAfter)
      ensures forall s :: s in r ==> IsTimestamp(s.updated)
      ensures Stamped(chats) && (MostRecentFirst(r) <==> NoClash(chats))
    {
      var all := AllValues(sessions);
      AllSessionsListed(sessions, messages.vals, chats, all);
      UpdatedAfterIsWeakOrder();
      r := Sorting.Slice(all, UpdatedAfter);
      PermutationListsAll(all, r, chats);
      MostRecentFirstUnlessClash(r, chats);
    }

    method GetSession(id: Bytes) returns (r: Result<Session, Error>)
      requires Valid()
      ensures r == if id in chats then Ok(chats[id].meta) else Err(NotFound)
    {
      LookupFindsSession(sessions.vals, messages.vals, chats, id);
      var v := sessions.Get(SessionKey(id));
      match v
      case None => r := Err(NotFound);
      case Some(s) => r := Ok(s);
    }

    method ListMessages(id: Bytes) returns (r: seq<Message>)
      requires Valid()
      ensures id !in chats ==> r == []
      ensures id in chats ==> multiset(r) == multiset(chats[id].log)
      ensures id in chats ==> (r == chats[id].log <==> |chats[id].log| <= MAX_PADDED_SEQ + 1)
    {
      r := ReadPrefix(messages, MessagePrefix(id));
      FetchedLog(messages, chats, id, r);
    }

    method AppendMessage(id: Bytes, role: string, content: string, now: Instant)
        returns (r: Result<Message, Error>)
      requires Valid() && now.Valid()
      modifies this
      ensures Valid()
      ensures id !in old(chats) ==> r == Err(NotFound) && chats == old(chats)
      ensures id in old(chats) ==>
                && r == Ok(Message(id, |old(chats)[id].log|, role, content, Format(now)))
                && chats == Appended(old(chats), r.value)
                && chats == old(chats)[id := Chat(old(chats)[id].meta.(updated := Format(now)),
                                                  old(chats)[id].log + [r.value])]
    {
      r, sessions, messages := AppendTx(sessions, messages, chats, id, role, content, now);
      if r.Ok? {
        chats := Appended(chats, r.value);
      }
    }

    method DeleteSession(id: Bytes) returns (r: Result<(), Error>)
      requires Valid()
      modifies this
      ensures Valid()
      ensures r == if id in old(chats) then Ok(()) else Err(NotFound)
      ensures chats == Removed(old(chats), id)
      ensures chats == old(chats) - {id}
    {
      r, sessions, messages := DeleteTx(sessions, messages, chats, id);
      chats := Removed(chats, id);
    }
  }
}
