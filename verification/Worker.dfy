/**
 keda/agent-worker/main.py: process_entry and the loop that reads, processes and acknowledges.
 */
module Worker {
  import opened AgentTurn
  import opened Wrappers

  type Fields = map<string, string>

  /** What a worker does to the outside, in order. */
  datatype Effect =
    | Ran(call: ToolCall)
    | Publish(channel: string, payload: string)
    | Xack(msgId: string)

  /** dict.get(key, ""). */
  function Field(fields: Fields, key: string): string
  {
    if key in fields then fields[key] else ""
  }

  function AsEffects(calls: seq<ToolCall>): seq<Effect>
  {
    seq(|calls|, i requires 0 <= i < |calls| => Ran(calls[i]))
  }

  /** What process_entry owes after its turn: the reply, when there is a session, then the change. */
  function Published(sessionId: string, reply: string): seq<Effect>
  {
    (if sessionId != "" then [Publish("chat:" + sessionId, reply)] else []) + [Publish("todos:changed", "1")]
  }

  /**
   What a pass of the loop meets with: the model, the tools, the text of an exception, and how many
   of its own Redis commands succeed before one raises. A raising command ends the program; whether
   it took effect itself makes no difference to what follows, so it counts as the one before that.
   */
  datatype World = World(model: Model, tools: Tools, error: string, redis: nat)

  function Prefix<T>(s: seq<T>, n: nat): seq<T>
  {
    if n <= |s| then s[..n] else s
  }

  /** The chat reply for either way a turn can end. */
  function ReplyText(outcome: Outcome, error: string): string
  {
    match outcome
    case Reply(text) => text
    case Raised => "Something went wrong handling that request: " + error
  }

  /**
   The turn in this world makes these tool calls and leads to this reply: what it returned, or an
   apology with the text of the exception.
   */
  ghost predicate TurnGives(calls: seq<ToolCall>, reply: string, world: World)
  {
    exists outcome ::
      && Ends(outcome, calls, Rounds(world.model, world.tools), world.model, world.tools)
      && (outcome.Reply? ==> reply == outcome.text)
      && (outcome.Raised? ==> reply == "Something went wrong handling that request: " + world.error)
  }

  /** These effects, or only the first `n` of them. */
  predicate Then(effects: seq<Effect>, all: seq<Effect>, n: nat)
  {
    if |all| <= n then effects == all else effects == all[..n]
  }

  /** What is published, in terms of the fields themselves. */
  lemma PublishedInFields(fields: Fields, reply: string, n: nat)
    ensures var p := Prefix(Published(Field(fields, "session_id"), reply), n);
            if "session_id" in fields && fields["session_id"] != "" then
              Then(p, [Publish("chat:" + fields["session_id"], reply), Publish("todos:changed", "1")], n)
            else Then(p, [Publish("todos:changed", "1")], n)
  {
  }

  lemma CallsFirst(calls: seq<ToolCall>, rest: seq<Effect>)
    ensures var effects := AsEffects(calls) + rest;
            && |calls| <= |effects| && effects[|calls|..] == rest
            && forall i :: 0 <= i < |calls| ==> effects[i] == Ran(calls[i])
  {
  }

  lemma PublishedUpTo(sid: string, reply: string, n: nat)
    ensures var p := Published(sid, reply);
            && |p| == (if sid != "" then 2 else 1)
            && Prefix(p, n) == if |p| <= n then p else if n == 0 then [] else [Publish("chat:" + sid, reply)]
  {
  }

  /** The publishing half of process_entry; `left` is None when a command raised. */
  method PublishAll(sessionId: string, reply: string, redis: nat) returns (effects: seq<Effect>, left: Option<nat>)
    ensures effects == Prefix(Published(sessionId, reply), redis)
    ensures var n := |Published(sessionId, reply)|; left == if n <= redis then Some(redis - n) else None
  {
    PublishedUpTo(sessionId, reply, redis);
    effects := [];
    var budget := redis;
    if sessionId != "" {
      if budget == 0 {
        return effects, None;
      }
      effects, budget := effects + [Publish("chat:" + sessionId, reply)], budget - 1;
    }
    if budget == 0 {
      return effects, None;
    }
    effects, left := effects + [Publish("todos:changed", "1")], Some(budget - 1);
  }

  /**
   Returns also the transcripts sent, the turn's tool calls and the reply, which say what the effects
   are. `left` is None when a publish raised, else how many Redis commands may still succeed.
   */
  method ProcessEntry(fields: Fields, world: World)
      returns (effects: seq<Effect>, left: Option<nat>, sent: seq<seq<Turn>>, calls: seq<ToolCall>, reply: string)
    ensures TurnGives(calls, reply, world)
    ensures AllTranscripts(sent, Field(fields, "message"), world.model, world.tools) && |sent| > 0
    ensures effects == AsEffects(calls) + Prefix(Published(Field(fields, "session_id"), reply), world.redis)
    ensures var n := |Published(Field(fields, "session_id"), reply)|;
            left == if n <= world.redis then Some(world.redis - n) else None
    // in terms of the fields themselves
    ensures sent[0] == [UserText(if "message" in fields then fields["message"] else "")]
    ensures |calls| <= |effects| && forall i :: 0 <= i < |calls| ==> effects[i] == Ran(calls[i])
    ensures var change, rest := Publish("todos:changed", "1"), effects[|calls|..];
            if "session_id" in fields && fields["session_id"] != "" then
              Then(rest, [Publish("chat:" + fields["session_id"], reply), change], world.redis)
            else Then(rest, [change], world.redis)
  {
    var sessionId := Field(fields, "session_id");
    var message := Field(fields, "message");
    var outcome;
    outcome, sent, calls := RunAgentTurn(message, world.model, world.tools);
    reply := ReplyText(outcome, world.error);
    var published;
    published, left := PublishAll(sessionId, reply, world.redis);
    effects := AsEffects(calls) + published;
    CallsFirst(calls, published);
    PublishedInFields(fields, reply, world.redis);
  }

  /** One answer of XREADGROUP `>` with count 1. */
  datatype Delivery = Delivery(msgId: string, fields: Fields)

  /** The Redis commands a pass owes for its delivery. */
  function Commands(d: Delivery, reply: string): seq<Effect>
  {
    Published(Field(d.fields, "session_id"), reply) + [Xack(d.msgId)]
  }

  /** A pass: tool calls, then what is published, then the acknowledgement, as far as Redis lets it. */
  ghost predicate Settles(effects: seq<Effect>, d: Delivery, world: World)
  {
    exists calls, reply ::
      TurnGives(calls, reply, world) && effects == AsEffects(calls) + Prefix(Commands(d, reply), world.redis)
  }

  /** None of the pass's commands raises. */
  predicate Completes(d: Delivery, world: World)
  {
    |Commands(d, "")| <= world.redis
  }

  /** What one XREADGROUP returned, and what the pass for it meets with. */
  datatype Answer = Answer(delivery: Option<Delivery>, world: World)

  predicate GoesOn(a: Answer)
  {
    a.delivery.Some? ==> Completes(a.delivery.value, a.world)
  }

  function Flatten(parts: seq<seq<Effect>>): seq<Effect>
  {
    if |parts| == 0 then [] else Flatten(parts[..|parts| - 1]) + parts[|parts| - 1]
  }

  /** One pass of the loop: a delivery is settled, a read that timed out has no effect. */
  ghost predicate Pass(effects: seq<Effect>, a: Answer)
  {
    if a.delivery.None? then effects == [] else Settles(effects, a.delivery.value, a.world)
  }

  /** The passes of the loop: each but the last is complete, and it only stops where one is not. */
  ghost predicate Passes(passes: seq<seq<Effect>>, answers: seq<Answer>)
  {
    && |passes| <= |answers|
    && (forall i :: 0 <= i < |passes| ==> Pass(passes[i], answers[i]))
    && (forall i :: 0 <= i < |passes| - 1 ==> GoesOn(answers[i]))
    && (|passes| < |answers| ==> |passes| > 0 && !GoesOn(answers[|passes| - 1]))
  }

  /** A delivery, processed and acknowledged. */
  method ServeOne(d: Delivery, world: World) returns (effects: seq<Effect>, done: bool)
    ensures Settles(effects, d, world)
    ensures done <==> Completes(d, world)
  {
    var left, sent, calls, reply;
    effects, left, sent, calls, reply := ProcessEntry(d.fields, world);
    ghost var published := Published(Field(d.fields, "session_id"), reply);
    assert Commands(d, reply) == published + [Xack(d.msgId)];
    done := left.Some? && left.value > 0;
    if done {
      effects := effects + [Xack(d.msgId)];
      assert effects == AsEffects(calls) + Prefix(Commands(d, reply), world.redis);
    } else {
      assert Prefix(Commands(d, reply), world.redis) == Prefix(published, world.redis);
    }
  }

  /** The loop has come through these passes. */
  ghost predicate Running(passes: seq<seq<Effect>>, answers: seq<Answer>)
  {
    && |passes| <= |answers|
    && (forall i :: 0 <= i < |passes| ==> Pass(passes[i], answers[i]))
    && (forall i :: 0 <= i < |passes| ==> GoesOn(answers[i]))
  }

  lemma FlattenMore(passes: seq<seq<Effect>>, pass: seq<Effect>)
    ensures Flatten(passes + [pass]) == Flatten(passes) + pass
  {
    assert (passes + [pass])[..|passes|] == passes;
  }

  lemma AllPass(passes: seq<seq<Effect>>, answers: seq<Answer>, pass: seq<Effect>)
    requires |passes| < |answers| && Pass(pass, answers[|passes|])
    requires forall i :: 0 <= i < |passes| ==> Pass(passes[i], answers[i])
    ensures forall i :: 0 <= i <= |passes| ==> Pass((passes + [pass])[i], answers[i])
  {
    var passes' := passes + [pass];
    forall i | 0 <= i <= |passes| ensures Pass(passes'[i], answers[i]) {
      if i < |passes| {
        assert passes'[i] == passes[i];
      } else {
        assert passes'[i] == pass;
      }
    }
  }

  lemma OneMorePass(passes: seq<seq<Effect>>, answers: seq<Answer>, pass: seq<Effect>)
    requires Running(passes, answers) && |passes| < |answers| && Pass(pass, answers[|passes|])
    ensures if GoesOn(answers[|passes|]) then Running(passes + [pass], answers) else Passes(passes + [pass], answers)
  {
    AllPass(passes, answers, pass);
  }

  /** The loop of main over what XREADGROUP returns, pass by pass, until a command raises. */
  method ServeAll(answers: seq<Answer>) returns (effects: seq<Effect>, passes: seq<seq<Effect>>)
    ensures Passes(passes, answers) && effects == Flatten(passes)
  {
    effects, passes := [], [];
    for i := 0 to |answers|
      invariant |passes| == i && effects == Flatten(passes)
      invariant Running(passes, answers)
    {
      var pass, done := [], true;
      if answers[i].delivery.Some? {
        pass, done := ServeOne(answers[i].delivery.value, answers[i].world);
      }
      FlattenMore(passes, pass);
      OneMorePass(passes, answers, pass);
      passes := passes + [pass];
      effects := effects + pass;
      if !done {
        return;
      }
    }
  }
}
