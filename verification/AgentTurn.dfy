/**
 keda/agent-worker/main.py: run_agent_turn. The model and the tools are arbitrary:
 `model(k)` is what the k-th messages.create call does, and `tools(k, b)` what calling the tool of
 block b of that response does.
 */
module AgentTurn {
  import opened Wrappers

  const MAX_TOOL_ITERATIONS: nat := 8
  const LIMIT_TEXT :=
    "I made some changes but hit my tool-call limit before finishing -- try asking again to continue."

  datatype Block =
    | Text(text: string)
    | ToolUse(id: string, name: string, input: string)
    | Other

  datatype StopReason = ToolUseStop | OtherStop

  datatype Response = Response(content: seq<Block>, stop: StopReason)

  datatype ToolResult = ToolResult(toolUseId: string, content: string, isError: bool)

  datatype Turn =
    | UserText(text: string)
    | Assistant(content: seq<Block>)
    | UserResults(results: seq<ToolResult>)

  /**
   What became of a tool call: its text and is_error flag, or it raised. A call can raise after its
   request has reached the tool server, by the client's timeout or because the answer is lost.
   */
  datatype ToolOutcome = Answered(text: string, isError: bool) | Failed(reached: bool)

  /** None: the call of the model raised. */
  type Model = nat -> Option<Response>
  type Tools = (nat, nat) -> ToolOutcome

  /** A call that reached the tool server, where it can have effects. */
  datatype ToolCall = ToolCall(name: string, input: string)

  datatype Outcome = Reply(text: string) | Raised

  /** `at` lists the tool_use blocks among the first `n`: all of them, nothing else, in order. */
  ghost predicate InBlockOrder(at: seq<nat>, content: seq<Block>, n: nat)
    requires n <= |content|
  {
    && (forall b :: b in at <==> 0 <= b < n && content[b].ToolUse?)
    && (forall i, j :: 0 <= i < j < |at| ==> at[i] < at[j])
  }

  /** The indices of the tool_use blocks among the first `n`. */
  function ToolUses(content: seq<Block>, n: nat): (r: seq<nat>)
    requires n <= |content|
    ensures InBlockOrder(r, content, n)
    ensures forall i :: 0 <= i < |r| ==> r[i] < n && content[r[i]].ToolUse?
  {
    if n == 0 then []
    else
      var before := ToolUses(content, n - 1);
      assert forall i :: 0 <= i < |before| ==> before[i] in before;
      before + (if content[n - 1].ToolUse? then [n - 1] else [])
  }

  lemma LastIsLargest(at: seq<nat>, b: nat)
    requires b in at && forall i, j :: 0 <= i < j < |at| ==> at[i] < at[j]
    ensures b <= at[|at| - 1]
  {
  }

  lemma ShorterOrder(at: seq<nat>, content: seq<Block>, n: nat)
    requires n <= |content| && InBlockOrder(at, content, n) && |at| > 0
    ensures at[|at| - 1] < n && InBlockOrder(at[..|at| - 1], content, at[|at| - 1])
  {
    var k := |at| - 1;
    assert at[k] in at;
    forall b ensures b in at[..k] <==> 0 <= b < at[k] && content[b].ToolUse? {
      if b in at[..k] {
        assert b in at;
      }
      if 0 <= b < at[k] && content[b].ToolUse? {
        assert b in at;
      }
    }
  }

  /** There is only one such list. */
  lemma {:induction false} BlockOrderIsUnique(at: seq<nat>, at': seq<nat>, content: seq<Block>, n: nat)
    requires n <= |content| && InBlockOrder(at, content, n) && InBlockOrder(at', content, n)
    ensures at == at'
  {
    if at == [] || at' == [] {
      EmptyTogether(at, at', content, n);
      EmptyTogether(at', at, content, n);
    } else {
      var i, j := |at| - 1, |at'| - 1;
      LastsAgree(at, at', content, n);
      ShorterOrder(at, content, n);
      ShorterOrder(at', content, n);
      BlockOrderIsUnique(at[..i], at'[..j], content, at[i]);
      assert at == at[..i] + [at[i]] && at' == at'[..j] + [at'[j]];
    }
  }

  lemma EmptyTogether(at: seq<nat>, at': seq<nat>, content: seq<Block>, n: nat)
    requires n <= |content| && InBlockOrder(at, content, n) && InBlockOrder(at', content, n)
    ensures at == [] ==> at' == []
  {
    if at' != [] {
      assert at'[0] in at';
    }
  }

  lemma LastsAgree(at: seq<nat>, at': seq<nat>, content: seq<Block>, n: nat)
    requires n <= |content| && InBlockOrder(at, content, n) && InBlockOrder(at', content, n)
    requires at != [] && at' != []
    ensures at[|at| - 1] == at'[|at'| - 1]
  {
    var i, j := |at| - 1, |at'| - 1;
    assert at[i] in at && at'[j] in at';
    LastIsLargest(at, at'[j]);
    LastIsLargest(at', at[i]);
  }

  /** One result for each block listed, with its id and what its call returned. */
  ghost predicate ResultsOf(results: seq<ToolResult>, at: seq<nat>, content: seq<Block>, k: nat, tools: Tools)
    requires forall i :: 0 <= i < |at| ==> at[i] < |content| && content[at[i]].ToolUse?
  {
    && |results| == |at|
    && forall i :: 0 <= i < |at| ==>
         && tools(k, at[i]).Answered?
         && results[i] == ToolResult(content[at[i]].id, tools(k, at[i]).text, tools(k, at[i]).isError)
  }

  /** One call for each block listed, with its name and input. */
  ghost predicate CallsOf(calls: seq<ToolCall>, at: seq<nat>, content: seq<Block>)
    requires forall i :: 0 <= i < |at| ==> at[i] < |content| && content[at[i]].ToolUse?
  {
    && |calls| == |at|
    && forall i :: 0 <= i < |at| ==> calls[i] == ToolCall(content[at[i]].name, content[at[i]].input)
  }

  /** Every list of the tool_use blocks has a result and a call for each of its blocks. */
  ghost predicate AnswersAll(results: seq<ToolResult>, calls: seq<ToolCall>, content: seq<Block>, k: nat, tools: Tools)
  {
    forall at :: InBlockOrder(at, content, |content|) ==>
      && (forall i :: 0 <= i < |at| ==> at[i] in at)
      && ResultsOf(results, at, content, k, tools) && CallsOf(calls, at, content)
  }

  ghost predicate CallsAll(calls: seq<ToolCall>, content: seq<Block>, n: nat)
    requires n <= |content|
  {
    forall at :: InBlockOrder(at, content, n) ==>
      (forall i :: 0 <= i < |at| ==> at[i] in at) && CallsOf(calls, at, content)
  }

  function Calls(content: seq<Block>, n: nat): seq<ToolCall>
    requires n <= |content|
  {
    var uses := ToolUses(content, n);
    seq(|uses|, i requires 0 <= i < |uses| => ToolCall(content[uses[i]].name, content[uses[i]].input))
  }

  /** Each result answers the tool_use block of the same rank, by its id, with what that call returned. */
  ghost predicate Answers(results: seq<ToolResult>, content: seq<Block>, n: nat, k: nat, tools: Tools)
    requires n <= |content|
  {
    var uses := ToolUses(content, n);
    && |results| == |uses|
    && forall i :: 0 <= i < |uses| ==>
         && tools(k, uses[i]) == Answered(results[i].content, results[i].isError)
         && results[i].toolUseId == content[uses[i]].id
  }

  /** No tool_use block among the first `n` has a call that raises. */
  ghost predicate NoneRaises(content: seq<Block>, n: nat, k: nat, tools: Tools)
    requires n <= |content|
  {
    forall b :: 0 <= b < n && content[b].ToolUse? ==> tools(k, b).Answered?
  }

  /** Round k asked for tools and all of them came back. */
  ghost predicate Continues(k: nat, model: Model, tools: Tools)
  {
    && model(k).Some? && model(k).value.stop.ToolUseStop?
    && NoneRaises(model(k).value.content, |model(k).value.content|, k, tools)
  }

  /**
   A transcript the Messages API accepts after `k` complete rounds: the user's text, then for each
   round what the model said and one message with the answers to all of its tool uses.
   */
  ghost predicate Transcript(t: seq<Turn>, k: nat, userMessage: string, model: Model, tools: Tools)
  {
    && |t| == 2 * k + 1
    && t[0] == UserText(userMessage)
    && forall r :: 0 <= r < k ==>
         && model(r).Some?
         && t[2 * r + 1] == Assistant(model(r).value.content)
         && t[2 * r + 2].UserResults?
         && Answers(t[2 * r + 2].results, model(r).value.content, |model(r).value.content|, r, tools)
  }

  predicate IsUser(t: Turn)
  {
    !t.Assistant?
  }

  /** The roles alternate, starting and ending with the user. */
  lemma TranscriptAlternates(t: seq<Turn>, k: nat, userMessage: string, model: Model, tools: Tools)
    requires Transcript(t, k, userMessage, model, tools)
    ensures forall i :: 0 <= i < |t| ==> (IsUser(t[i]) <==> i % 2 == 0)
  {
    forall i | 0 <= i < |t| ensures IsUser(t[i]) <==> i % 2 == 0 {
      if i > 0 {
        var r := (i - 1) / 2;
        assert i == 2 * r + 1 || i == 2 * r + 2;
      }
    }
  }

  /** The concatenated text blocks. */
  function JoinText(content: seq<Block>): string
  {
    if |content| == 0 then ""
    else (if content[0].Text? then content[0].text else "") + JoinText(content[1..])
  }

  /** The texts of all text blocks, each once and in order, and nothing else. */
  lemma {:induction false} JoinTextIsAllText(a: seq<Block>, b: seq<Block>, text: string)
    ensures JoinText(a + b) == JoinText(a) + JoinText(b)
    ensures JoinText([Text(text)]) == text
    ensures forall x: Block :: !x.Text? ==> JoinText([x]) == ""
  {
    if |a| == 0 {
      assert a + b == b;
    } else {
      JoinTextIsAllText(a[1..], b, text);
      assert (a + b)[1..] == a[1..] + b;
    }
  }

  /** The tool calls of the first `k` rounds, all complete. */
  ghost function CallsOfRounds(k: nat, model: Model): seq<ToolCall>
    requires forall r :: 0 <= r < k ==> model(r).Some?
  {
    if k == 0 then []
    else CallsOfRounds(k - 1, model) + Calls(model(k - 1).value.content, |model(k - 1).value.content|)
  }

  /** The call for block b is the first of round k that raises. */
  ghost predicate FirstToRaise(content: seq<Block>, b: int, k: nat, tools: Tools)
  {
    0 <= b < |content| && content[b].ToolUse? && tools(k, b).Failed? && NoneRaises(content, b, k, tools)
  }

  /** The calls of a round that ends with block b raising: b's own is among them if it got through. */
  ghost predicate CallsUntil(calls: seq<ToolCall>, content: seq<Block>, b: int, k: nat, tools: Tools)
  {
    && FirstToRaise(content, b, k, tools)
    && calls == Calls(content, if tools(k, b).reached then b + 1 else b)
  }

  lemma CallsAreAll(calls: seq<ToolCall>, content: seq<Block>, n: nat)
    requires n <= |content| && calls == Calls(content, n)
    ensures CallsAll(calls, content, n)
  {
    forall at | InBlockOrder(at, content, n)
      ensures (forall i :: 0 <= i < |at| ==> at[i] in at) && CallsOf(calls, at, content)
    {
      BlockOrderIsUnique(at, ToolUses(content, n), content, n);
    }
  }

  lemma AnswersAreAll(results: seq<ToolResult>, calls: seq<ToolCall>, content: seq<Block>, k: nat, tools: Tools)
    requires Answers(results, content, |content|, k, tools) && calls == Calls(content, |content|)
    ensures AnswersAll(results, calls, content, k, tools)
  {
    forall at | InBlockOrder(at, content, |content|)
      ensures (forall i :: 0 <= i < |at| ==> at[i] in at)
           && ResultsOf(results, at, content, k, tools) && CallsOf(calls, at, content)
    {
      BlockOrderIsUnique(at, ToolUses(content, |content|), content, |content|);
    }
  }

  /**
   The inner loop: call each tool the model asked for. `raised` when a call raised, by when the calls
   before it, and perhaps that one, have reached the tool server.
   */
  method CallTools(content: seq<Block>, k: nat, tools: Tools)
      returns (results: seq<ToolResult>, calls: seq<ToolCall>, raised: bool)
    ensures !raised <==> NoneRaises(content, |content|, k, tools)
    ensures !raised ==> Answers(results, content, |content|, k, tools) && calls == Calls(content, |content|)
    ensures raised ==> exists b :: CallsUntil(calls, content, b, k, tools)
    // in so many words
    ensures !raised ==> AnswersAll(results, calls, content, k, tools)
    ensures raised ==> exists b :: FirstToRaise(content, b, k, tools)
                                && CallsAll(calls, content, if tools(k, b).reached then b + 1 else b)
  {
    results, calls, raised := [], [], false;
    for b := 0 to |content|
      invariant NoneRaises(content, b, k, tools) && Answers(results, content, b, k, tools)
      invariant calls == Calls(content, b)
    {
      if !content[b].ToolUse? {
        continue;
      }
      var outcome := tools(k, b);
      if outcome.Answered? || outcome.reached {
        calls := calls + [ToolCall(content[b].name, content[b].input)];
      }
      if outcome.Failed? {
        assert CallsUntil(calls, content, b, k, tools);
        CallsAreAll(calls, content, if outcome.reached then b + 1 else b);
        return results, calls, true;
      }
      results := results + [ToolResult(content[b].id, outcome.text, outcome.isError)];
    }
    AnswersAreAll(results, calls, content, k, tools);
  }

  /** How many rounds complete before one does not, up to the limit. */
  ghost function RoundsFrom(k: nat, model: Model, tools: Tools): (n: nat)
    requires k <= MAX_TOOL_ITERATIONS
    ensures k <= n <= MAX_TOOL_ITERATIONS
    ensures forall r :: k <= r < n ==> Continues(r, model, tools)
    ensures n < MAX_TOOL_ITERATIONS ==> !Continues(n, model, tools)
    decreases MAX_TOOL_ITERATIONS - k
  {
    if k < MAX_TOOL_ITERATIONS && Continues(k, model, tools) then RoundsFrom(k + 1, model, tools) else k
  }

  ghost function Rounds(model: Model, tools: Tools): nat
  {
    RoundsFrom(0, model, tools)
  }

  /** How a turn ends after `n` complete rounds: the limit, a raise, or the model's text. */
  ghost predicate Ends(outcome: Outcome, calls: seq<ToolCall>, n: nat, model: Model, tools: Tools)
    requires forall r :: 0 <= r < n ==> model(r).Some?
  {
    var before := CallsOfRounds(n, model);
    if n == MAX_TOOL_ITERATIONS then outcome == Reply(LIMIT_TEXT) && calls == before
    else if model(n).None? then outcome == Raised && calls == before
    else
      var content := model(n).value.content;
      if model(n).value.stop.OtherStop? then outcome == Reply(JoinText(content)) && calls == before
      else outcome == Raised && exists b, last :: CallsUntil(last, content, b, n, tools) && calls == before + last
  }

  /** A complete round makes the next transcript. */
  lemma TranscriptGrows(t: seq<Turn>, k: nat, userMessage: string, model: Model, tools: Tools,
                        results: seq<ToolResult>)
    requires Transcript(t, k, userMessage, model, tools) && model(k).Some?
    requires Answers(results, model(k).value.content, |model(k).value.content|, k, tools)
    ensures Transcript(t + [Assistant(model(k).value.content)] + [UserResults(results)],
                       k + 1, userMessage, model, tools)
  {
    var t' := t + [Assistant(model(k).value.content)] + [UserResults(results)];
    assert forall i :: 0 <= i < |t| ==> t'[i] == t[i];
  }

  ghost predicate AllTranscripts(sent: seq<seq<Turn>>, userMessage: string, model: Model, tools: Tools)
  {
    forall k :: 0 <= k < |sent| ==> Transcript(sent[k], k, userMessage, model, tools)
  }

  lemma OneMoreTranscript(sent: seq<seq<Turn>>, t: seq<Turn>, userMessage: string, model: Model, tools: Tools)
    requires AllTranscripts(sent, userMessage, model, tools) && Transcript(t, |sent|, userMessage, model, tools)
    ensures AllTranscripts(sent + [t], userMessage, model, tools)
  {
  }

  /**
   run_agent_turn. `sent` are the transcripts passed to the model, in call order, and `calls` the
   tool calls that reached the server.
   */
  method RunAgentTurn(userMessage: string, model: Model, tools: Tools)
      returns (outcome: Outcome, sent: seq<seq<Turn>>, calls: seq<ToolCall>)
    // at most eight model calls; the k-th (from 0) gets a well-formed transcript of length 2k+1
    ensures |sent| <= 8 && AllTranscripts(sent, userMessage, model, tools)
    // it goes on exactly as long as rounds complete
    ensures var n := Rounds(model, tools);
            |sent| == if n < MAX_TOOL_ITERATIONS then n + 1 else n
    // how it ends is decided by the first round that does not continue
    ensures Ends(outcome, calls, Rounds(model, tools), model, tools)
  {
    var messages := [UserText(userMessage)];
    sent, calls := [], [];
    for k := 0 to MAX_TOOL_ITERATIONS
      invariant RoundsFrom(k, model, tools) == Rounds(model, tools)
      invariant |sent| == k && Transcript(messages, k, userMessage, model, tools)
      invariant AllTranscripts(sent, userMessage, model, tools)
      invariant calls == CallsOfRounds(k, model)
    {
      OneMoreTranscript(sent, messages, userMessage, model, tools);
      sent := sent + [messages];
      var response := model(k);
      if response.None? {
        return Raised, sent, calls;
      }
      var content := response.value.content;
      ghost var before := messages;
      messages := messages + [Assistant(content)];
      if response.value.stop != ToolUseStop {
        return Reply(JoinText(content)), sent, calls;
      }
      var results, made, raised := CallTools(content, k, tools);
      calls := calls + made;
      if raised {
        return Raised, sent, calls;
      }
      TranscriptGrows(before, k, userMessage, model, tools, results);
      messages := messages + [UserResults(results)];
    }
    outcome := Reply(LIMIT_TEXT);
  }
}
