/** The assistant's tool loop (backend/services/assistant_service.py _run and _dedupe_citations). */
module ToolLoop {
  import opened Options

  datatype ToolCall = ToolCall(id: string, name: string, args: string)

  datatype Message =
    | Prompt(text: string)                                  // system, user and earlier assistant messages
    | AssistantCalls(content: Option<string>, calls: seq<ToolCall>)
    | ToolAnswer(text: string, callId: string)

  /** One request to the provider: the conversation so far and the tools it offers. */
  datatype Request = Request(messages: seq<Message>, tools: seq<string>)

  datatype Response = Response(content: string, inputTokens: nat, outputTokens: nat, calls: seq<ToolCall>)

  /** What the provider does with one request. */
  datatype Reply = Answer(response: Response) | HttpError(status: int) | Failure

  datatype Outcome = Returned(response: Response) | Raised(reply: Reply)

  /** What executing a tool gives; tools never raise. */
  datatype ToolResult = ToolResult(text: string, citations: seq<string>)

  const MAX_TOOL_ROUNDS := 4

  /** Python's `content or None`. */
  function OrNone(content: string): Option<string> {
    if content == "" then None else Some(content)
  }

  /**
   What the provider and the tools do: reply n to request n and result k to tool call k, both
   counted from zero. Past the end of either list the provider fails and a tool gives nothing.
   */
  datatype Environment = Environment(replies: seq<Reply>, results: seq<ToolResult>) {

    function Reply(n: nat): Reply {
      if n < |replies| then replies[n] else Failure
    }

    function Result(k: nat): ToolResult {
      if k < |results| then results[k] else ToolResult("", [])
    }
  }

  /** Tokens of the successful completions among the first n requests. */
  function InputTokens(env: Environment, n: nat): nat {
    if n == 0 then 0
    else InputTokens(env, n - 1) + if env.Reply(n - 1).Answer? then env.Reply(n - 1).response.inputTokens else 0
  }

  function OutputTokens(env: Environment, n: nat): nat {
    if n == 0 then 0
    else OutputTokens(env, n - 1) + if env.Reply(n - 1).Answer? then env.Reply(n - 1).response.outputTokens else 0
  }

  function Completions(env: Environment, n: nat): nat {
    if n == 0 then 0 else Completions(env, n - 1) + if env.Reply(n - 1).Answer? then 1 else 0
  }

  /** The tool messages that answer `calls`, in order, when `from` calls were made before. */
  function Answers(calls: seq<ToolCall>, env: Environment, from: nat): seq<Message> {
    if calls == [] then [] else
      var last := |calls| - 1;
      Answers(calls[..last], env, from) + [ToolAnswer(env.Result(from + last).text, calls[last].id)]
  }

  /** The citations of the first k tool results. */
  function Cited(env: Environment, k: nat): seq<string> {
    if k == 0 then [] else Cited(env, k - 1) + env.Result(k - 1).citations
  }

  /** used_tools: every non-empty name once, in order of first use. */
  function UsedTools(calls: seq<ToolCall>): seq<string> {
    if calls == [] then [] else WithTool(UsedTools(calls[..|calls| - 1]), calls[|calls| - 1].name)
  }

  function WithTool(used: seq<string>, name: string): seq<string> {
    if name != "" && name !in used then used + [name] else used
  }

  lemma OneMoreCall(calls: seq<ToolCall>, call: ToolCall, env: Environment, from: nat)
    ensures Answers(calls + [call], env, from)
         == Answers(calls, env, from) + [ToolAnswer(env.Result(from + |calls|).text, call.id)]
    ensures UsedTools(calls + [call]) == WithTool(UsedTools(calls), call.name)
  {
    assert (calls + [call])[..|calls|] == calls;
  }

  lemma {:induction false} UsedToolsMeaning(calls: seq<ToolCall>)
    ensures forall n :: n in UsedTools(calls) <==> n != "" && exists i :: 0 <= i < |calls| && calls[i].name == n
    ensures forall i, j :: 0 <= i < j < |UsedTools(calls)| ==> UsedTools(calls)[i] != UsedTools(calls)[j]
  {
    if calls != [] {
      UsedToolsMeaning(calls[..|calls| - 1]);
      var before := UsedTools(calls[..|calls| - 1]);
      var after := UsedTools(calls);
      forall i, j | 0 <= i < j < |after| ensures after[i] != after[j] {
        assert before[i] in before;
      }
    }
  }

  /** One round that called tools: an assistant message with its calls, then one answer per call, in order. */
  function Block(r: Response, env: Environment, from: nat): seq<Message> {
    [AssistantCalls(OrNone(r.content), r.calls)] + Answers(r.calls, env, from)
  }

  /** The first n requests were all answered with tool calls. */
  ghost predicate AllCall(env: Environment, n: nat) {
    forall i :: 0 <= i < n ==> env.Reply(i).Answer? && env.Reply(i).response.calls != []
  }

  /** The calls of the first n rounds. */
  function CallsOf(env: Environment, n: nat): seq<ToolCall> {
    if n == 0 || !env.Reply(n - 1).Answer? then [] else CallsOf(env, n - 1) + env.Reply(n - 1).response.calls
  }

  /** The blocks of the first n rounds. */
  function Blocks(env: Environment, n: nat): seq<Message> {
    if n == 0 || !env.Reply(n - 1).Answer? then [] else
      Blocks(env, n - 1) + Block(env.Reply(n - 1).response, env, |CallsOf(env, n - 1)|)
  }

  /** The first n requests of a run whose rounds all called tools: each offers the tools and carries the blocks so far. */
  function Requests(start: seq<Message>, tools: seq<string>, env: Environment, n: nat): seq<Request> {
    if n == 0 then [] else Requests(start, tools, env, n - 1) + [Request(start + Blocks(env, n - 1), tools)]
  }

  /** How often a run of `rounds` executed rounds had its tools rejected: the first rejection takes the tools away. */
  function Recoveries(env: Environment, rounds: nat): nat {
    if rounds < MAX_TOOL_ROUNDS && env.Reply(rounds) == HttpError(400) then 1 else 0
  }

  /** The requests of a run of `rounds` executed rounds: the last one offers no tools if it was forced or retried. */
  function RequestsOfRun(start: seq<Message>, tools: seq<string>, env: Environment, rounds: nat): seq<Request> {
    var last := Request(start + Blocks(env, rounds), []);
    if rounds == MAX_TOOL_ROUNDS then Requests(start, tools, env, rounds) + [last]
    else Requests(start, tools, env, rounds + 1) + if Recoveries(env, rounds) == 1 then [last] else []
  }

  /**
   What a run gives: the last reply, with the tokens of every completion of the run if it is an
   answer. A returned answer asks for no tool, unless tools were no longer offered.
   */
  ghost predicate IsOutcome(outcome: Outcome, env: Environment, rounds: nat) {
    var requests := rounds + Recoveries(env, rounds) + 1;
    match env.Reply(requests - 1)
    case Answer(r) =>
      && outcome == Returned(r.(inputTokens := InputTokens(env, requests), outputTokens := OutputTokens(env, requests)))
      && (Recoveries(env, rounds) == 1 || rounds == MAX_TOOL_ROUNDS || r.calls == [])
    case HttpError(_) => outcome == Raised(env.Reply(requests - 1))
    case Failure => outcome == Raised(env.Reply(requests - 1))
  }

  class Conversation {
    var messages: seq<Message>
    var toolLog: seq<ToolCall>
    var usedTools: seq<string>
    var citations: seq<string>
    var sent: seq<Request>
    const env: Environment

    constructor (messages: seq<Message>, env: Environment)
      ensures this.messages == messages && toolLog == [] && usedTools == [] && citations == [] && sent == []
      ensures this.env == env
    {
      this.messages, toolLog, usedTools, citations, sent := messages, [], [], [], [];
      this.env := env;
    }

    /** What n rounds that all called tools leave in the conversation and the logs. */
    ghost predicate Executed(start: seq<Message>, n: nat)
      reads this`messages, this`toolLog, this`usedTools, this`citations
    {
      && AllCall(env, n)
      && messages == start + Blocks(env, n)
      && toolLog == CallsOf(env, n)
      && LogsAgree()
    }

    /** The tool names and citations collected so far are those of the calls made so far. */
    ghost predicate LogsAgree()
      reads this`toolLog, this`usedTools, this`citations
    {
      usedTools == UsedTools(toolLog) && citations == Cited(env, |toolLog|)
    }

    method Complete(tools: Option<seq<string>>) returns (reply: Reply)
      modifies this`sent
      ensures reply == env.Reply(|old(sent)|)
      ensures sent == old(sent) + [Request(messages, tools.GetOr([]))]
    {
      reply := env.Reply(|sent|);
      sent := sent + [Request(messages, tools.GetOr([]))];
    }

    method RunCall(call: ToolCall)
      requires LogsAgree()
      modifies this`messages, this`toolLog, this`usedTools, this`citations
      ensures messages == old(messages) + [ToolAnswer(env.Result(|old(toolLog)|).text, call.id)]
      ensures toolLog == old(toolLog) + [call] && LogsAgree()
    {
      OneMoreCall(toolLog, call, env, 0);
      var result := env.Result(|toolLog|);
      toolLog := toolLog + [call];
      if call.name != "" && call.name !in usedTools { usedTools := usedTools + [call.name]; }
      citations := citations + result.citations;
      messages := messages + [ToolAnswer(result.text, call.id)];
    }

    /** Appends the assistant message, runs its calls in order and appends their answers. */
    method RunCalls(r: Response)
      requires LogsAgree()
      modifies this`messages, this`toolLog, this`usedTools, this`citations
      ensures messages == old(messages) + Block(r, env, |old(toolLog)|)
      ensures toolLog == old(toolLog) + r.calls && LogsAgree()
    {
      messages := messages + [AssistantCalls(OrNone(r.content), r.calls)];
      ghost var started := messages;
      for i := 0 to |r.calls|
        invariant messages == started + Answers(r.calls[..i], env, |old(toolLog)|)
        invariant toolLog == old(toolLog) + r.calls[..i] && LogsAgree()
      {
        assert r.calls[..i + 1] == r.calls[..i] + [r.calls[i]];
        OneMoreCall(r.calls[..i], r.calls[i], env, |old(toolLog)|);
        RunCall(r.calls[i]);
      }
      assert r.calls[..|r.calls|] == r.calls;
      assert started + Answers(r.calls, env, |old(toolLog)|) == old(messages) + Block(r, env, |old(toolLog)|);
    }

    /**
     The completion of one round, asked again without tools if the provider rejects them. After
     `round` rounds the requests are those of a run that stops here, or of one more executed round.
     */
    method Ask(tools: Option<seq<string>>, ghost start: seq<Message>, ghost definitions: seq<string>, ghost round: nat)
      returns (reply: Reply, recovered: nat)
      requires round <= MAX_TOOL_ROUNDS && tools == (if round < MAX_TOOL_ROUNDS then Some(definitions) else None)
      requires messages == start + Blocks(env, round) && sent == Requests(start, definitions, env, round)
      modifies this`sent
      ensures recovered == Recoveries(env, round) && reply == env.Reply(round + recovered)
      ensures sent == RequestsOfRun(start, definitions, env, round)
    {
      RequestsLength(start, definitions, env, round);
      reply := Complete(tools);
      recovered := 0;
      if reply.HttpError? && tools.Some? && reply.status == 400 {
        assert |sent| == round + 1;
        recovered := 1;
        reply := Complete(None);
      }
    }

    /** Executing the calls of a round completes it. */
    method RunRound(r: Response, ghost start: seq<Message>, ghost round: nat)
      requires env.Reply(round) == Answer(r) && r.calls != []
      requires Executed(start, round)
      modifies this`messages, this`toolLog, this`usedTools, this`citations
      ensures Executed(start, round + 1)
    {
      RunCalls(r);
      assert messages == start + (Blocks(env, round) + Block(r, env, |CallsOf(env, round)|));
    }

    /** One iteration of the loop: an outcome ends the run, none means that the round's calls were executed. */
    method OneRound(tools: Option<seq<string>>, inTokens: nat, outTokens: nat,
        ghost start: seq<Message>, ghost definitions: seq<string>, ghost round: nat)
      returns (outcome: Option<Outcome>, inTotal: nat, outTotal: nat)
      requires round <= MAX_TOOL_ROUNDS && tools == (if round < MAX_TOOL_ROUNDS then Some(definitions) else None)
      requires inTokens == InputTokens(env, round) && outTokens == OutputTokens(env, round)
      requires Executed(start, round) && sent == Requests(start, definitions, env, round)
      modifies this
      ensures sent == RequestsOfRun(start, definitions, env, round)
      ensures outcome.Some? ==> Executed(start, round) && IsOutcome(outcome.value, env, round)
      ensures outcome.None? ==>
        && round < MAX_TOOL_ROUNDS && Recoveries(env, round) == 0
        && Executed(start, round + 1)
        && inTotal == InputTokens(env, round + 1) && outTotal == OutputTokens(env, round + 1)
    {
      var reply, recovered := Ask(tools, start, definitions, round);
      assert Executed(start, round);
      if !reply.Answer? {
        ErrorIsOutcome(env, round);
        return Some(Raised(reply)), inTokens, outTokens;
      }
      var offered := if recovered == 1 then None else tools;
      var resp := reply.response;
      inTotal, outTotal := inTokens + resp.inputTokens, outTokens + resp.outputTokens;
      OneMoreCompletion(env, round + recovered, resp);
      if resp.calls == [] || offered.None? {
        AnswerIsOutcome(env, round, resp);
        return Some(Returned(resp.(inputTokens := inTotal, outputTokens := outTotal))), inTotal, outTotal;
      }
      assert recovered == 0 && Recoveries(env, round) == 0 && round < MAX_TOOL_ROUNDS;
      RunRound(resp, start, round);
      outcome := None;
    }

    /** _run with tools. `rounds` is the number of rounds whose calls were executed. */
    method Run(definitions: seq<string>) returns (outcome: Outcome, ghost rounds: nat)
      requires toolLog == [] && usedTools == [] && citations == [] && sent == []
      modifies this
      ensures rounds <= MAX_TOOL_ROUNDS
      ensures Executed(old(messages), rounds)
      ensures sent == RequestsOfRun(old(messages), definitions, env, rounds)
      ensures IsOutcome(outcome, env, rounds)
    {
      var inTokens, outTokens := 0, 0;
      var offered := Some(definitions);
      for round := 0 to MAX_TOOL_ROUNDS + 1
        invariant round <= MAX_TOOL_ROUNDS && offered == Some(definitions)
        invariant inTokens == InputTokens(env, round) && outTokens == OutputTokens(env, round)
        invariant Executed(old(messages), round)
        invariant sent == Requests(old(messages), definitions, env, round)
      {
        if round == MAX_TOOL_ROUNDS { offered := None; }
        var ended;
        ended, inTokens, outTokens := OneRound(offered, inTokens, outTokens, old(messages), definitions, round);
        if ended.Some? { return ended.value, round; }
      }
      assert false; // the last round offers no tools, so it always returns or raises
    }

    /** _run without tools: one completion, returned or raised as it is. */
    method RunWithoutTools() returns (outcome: Outcome)
      modifies this`sent
      ensures sent == old(sent) + [Request(messages, [])]
      ensures outcome == (if env.Reply(|old(sent)|).Answer? then Returned(env.Reply(|old(sent)|).response)
                          else Raised(env.Reply(|old(sent)|)))
    {
      var reply := Complete(None);
      outcome := if reply.Answer? then Returned(reply.response) else Raised(reply);
    }
  }

  /** The totals of the executed rounds plus the last completion's tokens are the totals of the run. */
  lemma AnswerIsOutcome(env: Environment, rounds: nat, r: Response)
    requires env.Reply(rounds + Recoveries(env, rounds)) == Answer(r)
    requires Recoveries(env, rounds) == 1 || rounds == MAX_TOOL_ROUNDS || r.calls == []
    ensures IsOutcome(Returned(r.(inputTokens := InputTokens(env, rounds) + r.inputTokens,
                                  outputTokens := OutputTokens(env, rounds) + r.outputTokens)), env, rounds)
  {
    if Recoveries(env, rounds) == 1 {
      assert InputTokens(env, rounds + 1) == InputTokens(env, rounds);
      assert OutputTokens(env, rounds + 1) == OutputTokens(env, rounds);
    }
  }

  lemma OneMoreCompletion(env: Environment, n: nat, r: Response)
    requires env.Reply(n) == Answer(r)
    ensures InputTokens(env, n + 1) == InputTokens(env, n) + r.inputTokens
    ensures OutputTokens(env, n + 1) == OutputTokens(env, n) + r.outputTokens
  {
  }

  lemma ErrorIsOutcome(env: Environment, rounds: nat)
    requires !env.Reply(rounds + Recoveries(env, rounds)).Answer?
    ensures IsOutcome(Raised(env.Reply(rounds + Recoveries(env, rounds))), env, rounds)
  {
  }

  lemma {:induction false} RequestsLength(start: seq<Message>, tools: seq<string>, env: Environment, n: nat)
    ensures |Requests(start, tools, env, n)| == n
  {
    if n > 0 { RequestsLength(start, tools, env, n - 1); }
  }

  lemma {:induction false} AllCallCompletes(env: Environment, n: nat)
    requires AllCall(env, n)
    ensures Completions(env, n) == n
  {
    if n > 0 { AllCallCompletes(env, n - 1); }
  }

  /** Whatever the provider does, a run makes at most five requests; every one but a rejected or failed one is a completion. */
  lemma RunIsBounded(start: seq<Message>, tools: seq<string>, env: Environment, rounds: nat)
    requires rounds <= MAX_TOOL_ROUNDS && AllCall(env, rounds)
    ensures |RequestsOfRun(start, tools, env, rounds)| == rounds + Recoveries(env, rounds) + 1 <= MAX_TOOL_ROUNDS + 1
    ensures Completions(env, rounds + Recoveries(env, rounds) + 1)
         == rounds + if env.Reply(rounds + Recoveries(env, rounds)).Answer? then 1 else 0
  {
    AllCallCompletes(env, rounds);
    RequestsLength(start, tools, env, rounds);
  }

  // ----- the shape of the message list -----

  /** `ms` opens with an assistant message and one answer per call, in order. */
  predicate OpensBlock(ms: seq<Message>) {
    && ms != [] && ms[0].AssistantCalls? && ms[0].calls != [] && |ms[0].calls| < |ms|
    && forall i :: 0 <= i < |ms[0].calls| ==> AnswersCall(ms[i + 1], ms[0].calls[i])
  }

  predicate AnswersCall(m: Message, call: ToolCall) {
    m.ToolAnswer? && m.callId == call.id
  }

  /** Every tool message answers, in order, one call of the assistant message that opens its block. */
  ghost predicate WellFormed(ms: seq<Message>)
    decreases |ms|
  {
    ms == [] || (OpensBlock(ms) && WellFormed(ms[|ms[0].calls| + 1..]))
  }

  lemma {:induction false} AnswersMatchCalls(calls: seq<ToolCall>, env: Environment, from: nat)
    ensures |Answers(calls, env, from)| == |calls|
    ensures forall i :: 0 <= i < |calls| ==> Answers(calls, env, from)[i] == ToolAnswer(env.Result(from + i).text, calls[i].id)
  {
    if calls != [] { AnswersMatchCalls(calls[..|calls| - 1], env, from); }
  }

  lemma BlockOpens(r: Response, env: Environment, from: nat)
    requires r.calls != []
    ensures WellFormed(Block(r, env, from))
  {
    AnswersMatchCalls(r.calls, env, from);
    var block := Block(r, env, from);
    forall i | 0 <= i < |r.calls| ensures block[i + 1] == Answers(r.calls, env, from)[i] {
    }
    assert OpensBlock(block);
    assert block[|r.calls| + 1..] == [];
  }

  lemma {:induction false} WellFormedConcat(ms: seq<Message>, block: seq<Message>)
    requires WellFormed(ms) && WellFormed(block)
    ensures WellFormed(ms + block)
    decreases |ms|
  {
    if ms == [] {
      assert ms + block == block;
    } else {
      var n := |ms[0].calls| + 1;
      var all := ms + block;
      WellFormedConcat(ms[n..], block);
      assert all[0] == ms[0] && all[n..] == ms[n..] + block;
      forall i | 0 <= i < |ms[0].calls| ensures AnswersCall(all[i + 1], all[0].calls[i]) {
        assert all[i + 1] == ms[i + 1];
      }
      assert OpensBlock(all);
    }
  }

  /** What a run appends is well formed, whatever the provider answers. */
  lemma {:induction false} BlocksAreWellFormed(env: Environment, n: nat)
    requires AllCall(env, n)
    ensures WellFormed(Blocks(env, n))
  {
    if n > 0 {
      BlocksAreWellFormed(env, n - 1);
      BlockOpens(env.Reply(n - 1).response, env, |CallsOf(env, n - 1)|);
      WellFormedConcat(Blocks(env, n - 1), Block(env.Reply(n - 1).response, env, |CallsOf(env, n - 1)|));
    }
  }

  // ----- citations -----

  datatype Citation = Citation(kind: string, ref: Option<string>, id: string)

  /** f"{type}:{ref or id}": an empty ref counts as none. */
  function CitationKey(c: Citation): string {
    c.kind + ":" + if c.ref.Some? && c.ref.value != "" then c.ref.value else c.id
  }

  /** No earlier citation has the key of citation k. */
  predicate IsFirst(citations: seq<Citation>, k: nat)
    requires k < |citations|
  {
    forall j :: 0 <= j < k ==> CitationKey(citations[j]) != CitationKey(citations[k])
  }

  /** The first citation of every key, in order. */
  function FirstOfEach(citations: seq<Citation>): seq<Citation> {
    if citations == [] then []
    else
      var n := |citations| - 1;
      FirstOfEach(citations[..n]) + if IsFirst(citations, n) then [citations[n]] else []
  }

  lemma {:induction false} KeptAreGiven(citations: seq<Citation>)
    ensures forall c :: c in FirstOfEach(citations) ==> c in citations
  {
    if citations != [] { KeptAreGiven(citations[..|citations| - 1]); }
  }

  /** Every key of the list is kept. */
  lemma {:induction false} EveryKeyIsKept(citations: seq<Citation>, k: nat)
    requires k < |citations|
    ensures exists c :: c in FirstOfEach(citations) && CitationKey(c) == CitationKey(citations[k])
  {
    var n := |citations| - 1;
    var before := FirstOfEach(citations[..n]);
    assert forall c :: c in before ==> c in FirstOfEach(citations);
    if k < n {
      EveryKeyIsKept(citations[..n], k);
    } else if IsFirst(citations, n) {
      assert FirstOfEach(citations)[|before|] == citations[n];
    } else {
      var j :| 0 <= j < n && CitationKey(citations[j]) == CitationKey(citations[n]);
      EveryKeyIsKept(citations[..n], j);
    }
  }

  /** No key is kept twice. */
  lemma {:induction false} NoKeyIsKeptTwice(citations: seq<Citation>, i: nat, j: nat)
    requires i < j < |FirstOfEach(citations)|
    ensures CitationKey(FirstOfEach(citations)[i]) != CitationKey(FirstOfEach(citations)[j])
  {
    var n := |citations| - 1;
    var before := FirstOfEach(citations[..n]);
    if j < |before| {
      NoKeyIsKeptTwice(citations[..n], i, j);
    } else {
      KeptAreGiven(citations[..n]);
      assert before[i] in citations[..n];
      var m :| 0 <= m < n && citations[..n][m] == before[i];
      assert citations[m] == before[i];
    }
  }

  /** _dedupe_citations. */
  method DedupeCitations(citations: seq<Citation>) returns (kept: seq<Citation>)
    ensures kept == FirstOfEach(citations)
  {
    kept := [];
    var seen: set<string> := {};
    for k := 0 to |citations|
      invariant kept == FirstOfEach(citations[..k])
      invariant seen == set j | 0 <= j < k :: CitationKey(citations[j])
    {
      var key := CitationKey(citations[k]);
      assert citations[..k + 1][..k] == citations[..k];
      assert IsFirst(citations[..k + 1], k) <==> key !in seen;
      if key !in seen {
        seen := seen + {key};
        kept := kept + [citations[k]];
      }
    }
    assert citations[..|citations|] == citations;
  }

  // ----- the requests, one after the other -----

  lemma {:induction false} RequestAt(start: seq<Message>, tools: seq<string>, env: Environment, n: nat, i: nat)
    requires i < n
    ensures |Requests(start, tools, env, n)| == n && Requests(start, tools, env, n)[i] == Request(start + Blocks(env, i), tools)
  {
    RequestsLength(start, tools, env, n);
    RequestsLength(start, tools, env, n - 1);
    if i < n - 1 { RequestAt(start, tools, env, n - 1, i); }
  }

  /** A run starts by sending the conversation with all tools. */
  lemma FirstRequest(start: seq<Message>, tools: seq<string>, env: Environment, rounds: nat)
    requires rounds <= MAX_TOOL_ROUNDS
    ensures var sent := RequestsOfRun(start, tools, env, rounds);
      sent != [] && sent[0] == Request(start, tools)
  {
    RequestsLength(start, tools, env, rounds);
    RequestsLength(start, tools, env, rounds + 1);
    RequestAt(start, tools, env, if rounds == MAX_TOOL_ROUNDS then rounds else rounds + 1, 0);
    assert start + Blocks(env, 0) == start;
  }

  lemma RequestOfRunAt(start: seq<Message>, tools: seq<string>, env: Environment, rounds: nat, i: nat)
    requires i <= rounds <= MAX_TOOL_ROUNDS
    ensures var sent := RequestsOfRun(start, tools, env, rounds);
      i < |sent| && sent[i] == Request(start + Blocks(env, i), if i == MAX_TOOL_ROUNDS then [] else tools)
  {
    RequestsLength(start, tools, env, rounds);
    if rounds == MAX_TOOL_ROUNDS {
      if i < rounds { RequestAt(start, tools, env, rounds, i); }
    } else {
      RequestAt(start, tools, env, rounds + 1, i);
    }
  }

  /**
   What a request adds to the one before it, when that one was answered with tool calls: the
   assistant's message with the calls, and one answer per call, in order, with the call's own id and
   the result of executing it.
   */
  ghost predicate Extends(before: seq<Message>, after: seq<Message>, r: Response, env: Environment, made: nat) {
    && |after| == |before| + 1 + |r.calls| && after[..|before|] == before
    && after[|before|] == AssistantCalls(if r.content == "" then None else Some(r.content), r.calls)
    && forall k :: 0 <= k < |r.calls| ==> after[|before| + 1 + k] == ToolAnswer(env.Result(made + k).text, r.calls[k].id)
  }

  lemma BlockExtends(before: seq<Message>, r: Response, env: Environment, made: nat)
    ensures Extends(before, before + Block(r, env, made), r, env, made)
  {
    AnswersMatchCalls(r.calls, env, made);
    var answers := Answers(r.calls, env, made);
    assert before + Block(r, env, made) == before + [AssistantCalls(OrNone(r.content), r.calls)] + answers;
  }

  /** So does every request of a run extend the one before it, and it offers the same tools, none after the fourth round. */
  lemma NextRequest(start: seq<Message>, tools: seq<string>, env: Environment, rounds: nat, i: nat)
    requires i < rounds <= MAX_TOOL_ROUNDS && AllCall(env, rounds)
    ensures var sent := RequestsOfRun(start, tools, env, rounds);
      && i + 1 < |sent| && env.Reply(i).Answer?
      && sent[i].tools == tools && sent[i + 1].tools == (if i + 1 == 4 then [] else tools)
      && Extends(sent[i].messages, sent[i + 1].messages, env.Reply(i).response, env, |CallsOf(env, i)|)
  {
    RequestOfRunAt(start, tools, env, rounds, i);
    RequestOfRunAt(start, tools, env, rounds, i + 1);
    var r := env.Reply(i).response;
    BlockExtends(start + Blocks(env, i), r, env, |CallsOf(env, i)|);
    assert start + Blocks(env, i + 1) == (start + Blocks(env, i)) + Block(r, env, |CallsOf(env, i)|);
  }

  /** A provider that rejects the tools gets the same conversation once more without them. */
  lemma RetriedWithoutTools(start: seq<Message>, tools: seq<string>, env: Environment, rounds: nat)
    requires rounds < MAX_TOOL_ROUNDS && env.Reply(rounds) == HttpError(400)
    ensures var sent := RequestsOfRun(start, tools, env, rounds);
      && |sent| == rounds + 2 && sent[rounds + 1].tools == [] && sent[rounds + 1].messages == sent[rounds].messages
  {
    RequestAt(start, tools, env, rounds + 1, rounds);
  }

  function Sum(values: seq<nat>): nat {
    if values == [] then 0 else Sum(values[..|values| - 1]) + values[|values| - 1]
  }

  /** The token totals are the sums over the completions, each of its own kind. */
  lemma {:induction false} TokensMeaning(env: Environment, n: nat)
    ensures InputTokens(env, n) == Sum(seq(n, i requires 0 <= i < n => if env.Reply(i).Answer? then env.Reply(i).response.inputTokens else 0))
    ensures OutputTokens(env, n) == Sum(seq(n, i requires 0 <= i < n => if env.Reply(i).Answer? then env.Reply(i).response.outputTokens else 0))
  {
    if n > 0 {
      TokensMeaning(env, n - 1);
      var inputs := seq(n, i requires 0 <= i < n => if env.Reply(i).Answer? then env.Reply(i).response.inputTokens else 0);
      var outputs := seq(n, i requires 0 <= i < n => if env.Reply(i).Answer? then env.Reply(i).response.outputTokens else 0);
      assert inputs[..n - 1] == seq(n - 1, i requires 0 <= i < n - 1 => if env.Reply(i).Answer? then env.Reply(i).response.inputTokens else 0);
      assert outputs[..n - 1] == seq(n - 1, i requires 0 <= i < n - 1 => if env.Reply(i).Answer? then env.Reply(i).response.outputTokens else 0);
    }
  }

  /** An answer that asks for no tool at once is returned as it is. */
  lemma DirectAnswer(start: seq<Message>, tools: seq<string>, env: Environment, outcome: Outcome, r: Response)
    requires IsOutcome(outcome, env, 0) && env.Reply(0) == Answer(r)
    ensures outcome == Returned(r) && r.calls == [] && RequestsOfRun(start, tools, env, 0) == [Request(start, tools)]
  {
    assert InputTokens(env, 1) == r.inputTokens && OutputTokens(env, 1) == r.outputTokens;
    assert r.(inputTokens := r.inputTokens, outputTokens := r.outputTokens) == r;
    assert start + Blocks(env, 0) == start;
    assert Requests(start, tools, env, 0) == [];
  }

  /** Two citations have one key iff kind and reference agree; a citation without a reference is known by its id. */
  lemma CitationKeyMeaning(c: Citation)
    ensures CitationKey(c) == c.kind + ":" + (match c.ref case None => c.id case Some(r) => if r == "" then c.id else r)
  {
  }

  /** The first citation of a key is the one kept. */
  lemma {:induction false} FirstIsKept(citations: seq<Citation>, k: nat)
    requires k < |citations| && forall j :: 0 <= j < k ==> CitationKey(citations[j]) != CitationKey(citations[k])
    ensures citations[k] in FirstOfEach(citations)
  {
    var n := |citations| - 1;
    if k < n {
      FirstIsKept(citations[..n], k);
    } else {
      assert IsFirst(citations, n);
    }
  }

  /** Any other error ends the run at once and is raised as it is; so does a rejection once no tools are offered. */
  lemma OtherErrorsEndTheRun(start: seq<Message>, tools: seq<string>, env: Environment, rounds: nat, outcome: Outcome)
    requires rounds <= MAX_TOOL_ROUNDS && IsOutcome(outcome, env, rounds)
    requires env.Reply(rounds) == Failure || (env.Reply(rounds).HttpError? && (env.Reply(rounds).status != 400 || rounds == 4))
    ensures outcome == Raised(env.Reply(rounds)) && |RequestsOfRun(start, tools, env, rounds)| == rounds + 1
  {
    RequestsLength(start, tools, env, rounds);
    RequestsLength(start, tools, env, rounds + 1);
  }

  /** Citations come in the order of the calls: later results are added behind the earlier ones. */
  lemma {:induction false} CitedMeaning(env: Environment, k: nat, n: nat)
    requires k < n
    ensures |Cited(env, k)| <= |Cited(env, k + 1)| <= |Cited(env, n)|
    ensures Cited(env, n)[..|Cited(env, k)|] == Cited(env, k)
    ensures Cited(env, n)[|Cited(env, k)|..|Cited(env, k + 1)|] == env.Result(k).citations
  {
    if k + 1 < n { CitedMeaning(env, k, n - 1); }
  }
}
