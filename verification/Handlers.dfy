/**
 agent/backend/handlers.go: validation, status codes, and what a handler may observe when other
 requests run between its transactions.
 */
module Handlers {
  import opened Keys
  import opened Lex
  import opened SessionStore
  import opened Text
  import opened Timestamps
  import opened Wrappers

  // ---- sequences of store operations ----

  /** One writing transaction of another request. */
  datatype Op =
    | Create(title: string, random: Option<seq<Octet>>, unixNano: int, now: Instant)
    | Append(id: Bytes, role: string, content: string, now: Instant)
    | Delete(id: Bytes)

  predicate Legal(op: Op)
  {
    match op
    case Create(_, random, _, now) => now.Valid() && (random.Some? ==> |random.value| == 16)
    case Append(_, _, _, now) => now.Valid()
    case Delete(_) => true
  }

  predicate AllLegal(ops: seq<Op>)
  {
    forall i :: 0 <= i < |ops| ==> Legal(ops[i])
  }

  function NewSession(op: Op): Session
    requires op.Create?
  {
    Session(NewId(op.random, op.unixNano), Format(op.now), Format(op.now),
            if op.title == "" then DEFAULT_SESSION_TITLE else op.title)
  }

  /** One operation on the abstract state. */
  function Step(chats: Chats, op: Op): Chats
  {
    match op
    case Create(_, _, _, _) => Created(chats, NewSession(op))
    case Append(id, role, content, now) =>
      if id in chats then Appended(chats, Message(id, |chats[id].log|, role, content, Format(now))) else chats
    case Delete(id) => Removed(chats, id)
  }

  function Run(chats: Chats, ops: seq<Op>): Chats
    decreases |ops|
  {
    if |ops| == 0 then chats else Run(Step(chats, ops[0]), ops[1..])
  }

  method Perform(store: Store, op: Op)
    requires store.Valid() && Legal(op)
    modifies store
    ensures store.Valid() && store.chats == Step(old(store.chats), op)
  {
    match op {
      case Create(title, random, unixNano, now) =>
        var _ := store.CreateSession(title, random, unixNano, now);
      case Append(id, role, content, now) =>
        var _ := store.AppendMessage(id, role, content, now);
      case Delete(id) =>
        var _ := store.DeleteSession(id);
    }
  }

  /** Whatever operations run, the buckets stay a copy of what the same operations do to a map. */
  method PerformAll(store: Store, ops: seq<Op>)
    requires store.Valid() && AllLegal(ops)
    modifies store
    ensures store.Valid() && store.chats == Run(old(store.chats), ops)
  {
    for i := 0 to |ops|
      invariant store.Valid()
      invariant Run(store.chats, ops[i..]) == Run(old(store.chats), ops)
    {
      assert ops[i..][0] == ops[i] && ops[i..][1..] == ops[i + 1..];
      Perform(store, ops[i]);
    }
  }

  /** newID drew `id` for none of these creations. */
  predicate NeverDrawn(ops: seq<Op>, id: Bytes)
  {
    forall i :: 0 <= i < |ops| && ops[i].Create? ==> NewSession(ops[i]).id != id
  }

  predicate Deletes(ops: seq<Op>, id: Bytes)
  {
    Op.Delete(id) in ops
  }

  /** A session's log only grows until the session is deleted, and then it is gone for good. */
  lemma {:induction false} LogOnlyGrows(chats: Chats, ops: seq<Op>, id: Bytes)
    requires NeverDrawn(ops, id)
    ensures id in Run(chats, ops) ==>
              id in chats && !Deletes(ops, id) && chats[id].log <= Run(chats, ops)[id].log
    ensures id in chats && !Deletes(ops, id) ==> id in Run(chats, ops)
    decreases |ops|
  {
    if |ops| > 0 {
      LogOnlyGrows(Step(chats, ops[0]), ops[1..], id);
      assert Deletes(ops, id) <==> ops[0] == Op.Delete(id) || Deletes(ops[1..], id);
    }
  }

  // ---- requests and responses ----

  /** What decodeBody makes of a request body; an empty one leaves the defaults in place. */
  datatype Body<T> = TooLarge | Malformed | Decoded(value: T)

  datatype Response<T> =
    | BadRequest(reason: string)
    | NoSuchSession
    | NoContent
    | Answered(status: nat, value: T)

  datatype SessionDetail = SessionDetail(session: Session, messages: seq<Message>)

  datatype NewMessage = NewMessage(role: string, content: string)

  method CreateSession(store: Store, body: Body<string>, random: Option<seq<Octet>>, unixNano: int, now: Instant)
      returns (r: Response<Session>)
    requires store.Valid() && Legal(Create("", random, unixNano, now))
    modifies store
    ensures store.Valid()
    ensures r.Answered? <==> body.Decoded?
    ensures r.Answered? ==>
              && r.status == 201
              && r.value == Session(NewId(random, unixNano), Format(now), Format(now),
                                    if AllSpace(body.value) then DEFAULT_SESSION_TITLE else TrimSpace(body.value))
              && store.chats == Created(old(store.chats), r.value)
    ensures !r.Answered? ==> r.BadRequest? && store.chats == old(store.chats)
  {
    match body
    case TooLarge => r := BadRequest("request body too large");
    case Malformed => r := BadRequest("invalid JSON body");
    case Decoded(title) =>
      BlankTrimsToNothing(title);
      var s := store.CreateSession(TrimSpace(title), random, unixNano, now);
      r := Answered(201, s);
  }

  /**
   getSession: two read transactions, with `between` the writes other requests commit in between.
   As long as none of them draws this very id, the messages answered are numbered 0..k-1 without a
   gap, and either extend the log as it was when the session was looked up or are empty because
   the session was deleted meanwhile.
   */
  method GetSession(store: Store, id: Bytes, between: seq<Op>) returns (r: Response<SessionDetail>)
    requires store.Valid() && AllLegal(between)
    modifies store
    ensures store.Valid()
    ensures id !in old(store.chats) ==> r == NoSuchSession
    ensures id in old(store.chats) ==>
              && r.Answered? && r.status == 200 && r.value.session == old(store.chats)[id].meta
              && store.chats == Run(old(store.chats), between)
    ensures id in old(store.chats) && NeverDrawn(between, id) ==>
              if Deletes(between, id) then r.value.messages == []
              else exists log :: IsExtensionOf(r.value.messages, log, old(store.chats)[id].log, id)
  {
    var found := store.GetSession(id);
    if found.Err? {
      return NoSuchSession;
    }
    ghost var before := store.chats;
    PerformAll(store, between);
    var messages := store.ListMessages(id);
    r := Answered(200, SessionDetail(found.value, messages));
    if NeverDrawn(between, id) {
      LogOnlyGrows(before, between, id);
      if !Deletes(between, id) {
        assert IsExtensionOf(messages, store.chats[id].log, before[id].log, id) by {
          assert WellFormed(id, store.chats[id]);
        }
      }
    }
  }

  /** `messages` are those of `log`, a gap-free log that starts with `earlier`. */
  ghost predicate IsExtensionOf(messages: seq<Message>, log: seq<Message>, earlier: seq<Message>, id: Bytes)
  {
    && Numbered(id, log) && earlier <= log
    && multiset(messages) == multiset(log)
    && (|log| <= MAX_PADDED_SEQ + 1 ==> messages == log)
  }

  method DeleteSession(store: Store, id: Bytes) returns (r: Response<()>)
    requires store.Valid()
    modifies store
    ensures store.Valid() && store.chats == Removed(old(store.chats), id)
    ensures r == if id in old(store.chats) then NoContent else NoSuchSession
  {
    var d := store.DeleteSession(id);
    r := if d.Ok? then NoContent else NoSuchSession;
  }

  /** appendMessage: only a trimmed, non-blank message of a known role is ever stored. */
  method AppendMessage(store: Store, id: Bytes, body: Body<NewMessage>, now: Instant)
      returns (r: Response<Message>)
    requires store.Valid() && now.Valid()
    modifies store
    ensures store.Valid()
    ensures r.Answered? <==>
              && body.Decoded? && TrimSpace(body.value.role) in {"user", "assistant"}
              && !AllSpace(body.value.content) && id in old(store.chats)
    ensures r.Answered? ==>
              && r.status == 201
              && r.value == Message(id, |old(store.chats)[id].log|, TrimSpace(body.value.role),
                                    TrimSpace(body.value.content), Format(now))
              && store.chats == Appended(old(store.chats), r.value)
    ensures !r.Answered? ==> store.chats == old(store.chats)
    ensures r.BadRequest? <==> body.Decoded? ==>
              !(TrimSpace(body.value.role) in {"user", "assistant"}) || AllSpace(body.value.content)
    ensures r == NoSuchSession <==>
              && body.Decoded? && TrimSpace(body.value.role) in {"user", "assistant"}
              && !AllSpace(body.value.content) && id !in old(store.chats)
  {
    match body
    case TooLarge => r := BadRequest("request body too large");
    case Malformed => r := BadRequest("invalid JSON body");
    case Decoded(m) =>
      var role, content := TrimSpace(m.role), TrimSpace(m.content);
      BlankTrimsToNothing(m.content);
      if role != "user" && role != "assistant" {
        return BadRequest("role must be \"user\" or \"assistant\"");
      }
      if content == "" {
        return BadRequest("content is required");
      }
      var a := store.AppendMessage(id, role, content, now);
      r := if a.Ok? then Answered(201, a.value) else NoSuchSession;
  }
}
