/** agent_harness.AgentHarness: the tool-use conversation loop and its retries. */
module AgentLoop {
  import Redaction

  const MODEL_CAP := 8096
  const MAX_RETRIES := 3
  const RETRYABLE_CODES: set<int> := {429, 500, 502, 503, 504}

  datatype Block = Text(text: string) | ToolUse(id: string, name: string, input: string) | OtherBlock

  datatype ToolResult = ToolResult(toolUseId: string, content: string)

  datatype Message = Prompt(text: string) | Assistant(blocks: seq<Block>) | Results(results: seq<ToolResult>)

  /** A prompt and tool results are sent in the user role. */
  predicate UserRole(m: Message) { !m.Assistant? }

  /** An answer of the endpoint; `tokens` is input plus output usage. */
  datatype Reply = Reply(status: int, body: string, tokens: int, blocks: seq<Block>, stop: string)

  /** One request that was sent, with its answer. */
  datatype Post = Post(messages: seq<Message>, maxTokens: int, reply: Reply)

  predicate Retryable(r: Reply) { r.status in RETRYABLE_CODES }

  predicate Success(r: Reply) { !Retryable(r) && r.status < 400 }

  /** Every status is one of three things: worth a retry, a final error, or a success. */
  lemma RetryableExactly(r: Reply)
    ensures Retryable(r) <==> r.status == 429 || r.status == 500 || 502 <= r.status <= 504
    ensures Success(r) <==> r.status < 400
  {
  }

  function ToolIds(blocks: seq<Block>): seq<string> {
    if blocks == [] then []
    else ToolIds(blocks[..|blocks| - 1])
         + if blocks[|blocks| - 1].ToolUse? then [blocks[|blocks| - 1].id] else []
  }

  function Ids(results: seq<ToolResult>): seq<string> {
    if results == [] then [] else Ids(results[..|results| - 1]) + [results[|results| - 1].toolUseId]
  }

  /** The tool uses of an answer, in order. */
  function Uses(blocks: seq<Block>): (us: seq<Block>)
    ensures forall u :: u in us ==> u.ToolUse?
  {
    if blocks == [] then []
    else Uses(blocks[..|blocks| - 1]) + if blocks[|blocks| - 1].ToolUse? then [blocks[|blocks| - 1]] else []
  }

  type Tool = (nat, string, string) -> string

  /** One result for each tool use, in order, and each holds what the tool returned for it; the tool calls are
      numbered from `first` on. */
  ghost predicate Delivers(results: seq<ToolResult>, blocks: seq<Block>, tool: Tool, first: nat) {
    && |results| == |Uses(blocks)|
    && forall m :: 0 <= m < |results| ==>
         var u := Uses(blocks)[m];
         results[m] == ToolResult(u.id, tool(first + m, u.name, u.input))
  }

  function TextsIn(blocks: seq<Block>): seq<string> {
    if blocks == [] then []
    else TextsIn(blocks[..|blocks| - 1])
         + if blocks[|blocks| - 1].Text? && blocks[|blocks| - 1].text != "" then [blocks[|blocks| - 1].text] else []
  }

  function Join(parts: seq<string>): string {
    if parts == [] then "" else if |parts| == 1 then parts[0] else parts[0] + "\n" + Join(parts[1..])
  }

  /** One more part goes on a new line at the end. */
  lemma {:induction false} JoinSnoc(parts: seq<string>, p: string)
    ensures Join([]) == "" && Join([p]) == p
    ensures parts != [] ==> Join(parts + [p]) == Join(parts) + "\n" + p
  {
    if |parts| > 1 {
      assert (parts + [p])[1..] == parts[1..] + [p];
      JoinSnoc(parts[1..], p);
    } else if |parts| == 1 {
      assert (parts + [p])[1..] == [p];
    }
  }

  // ------------------------------------------------------------------ the conversation and the log

  /** User and assistant take turns, the prompt first; each later user message holds exactly one result for each
      tool use of the assistant message before it, in the same order. */
  ghost predicate WellFormed(ms: seq<Message>) {
    && |ms| % 2 == 1 && ms[0].Prompt?
    && (forall k :: 0 <= k < |ms| ==> (UserRole(ms[k]) <==> k % 2 == 0))
    && forall k :: 0 < k < |ms| && k % 2 == 0 ==> ms[k].Results? && Ids(ms[k].results) == ToolIds(ms[k - 1].blocks)
  }

  /** Tokens used by the successful requests. */
  function Spent(log: seq<Post>): int {
    if log == [] then 0
    else Spent(log[..|log| - 1]) + if Success(log[|log| - 1].reply) then log[|log| - 1].reply.tokens else 0
  }

  /** Failed requests at the end of the log. */
  function FailRun(log: seq<Post>): nat {
    if log == [] || Success(log[|log| - 1].reply) then 0 else FailRun(log[..|log| - 1]) + 1
  }

  function Texts(log: seq<Post>): seq<string> {
    if log == [] then []
    else Texts(log[..|log| - 1]) + if Success(log[|log| - 1].reply) then TextsIn(log[|log| - 1].reply.blocks) else []
  }

  /** The tool calls that the answers so far asked for. */
  function Calls(log: seq<Post>): nat {
    if log == [] then 0
    else
      var r := log[|log| - 1].reply;
      Calls(log[..|log| - 1]) + if Success(r) && r.stop == "tool_use" then |Uses(r.blocks)| else 0
  }

  /** What a run is given: its budget, its tools, the number of its first tool call, and the prompt. */
  datatype Setup = Setup(budget: int, tool: Tool, first: nat, prompt: string)

  /** After a success that asks for tools the conversation grows by the reply and by the results of exactly those
      tool calls, with the texts the tools returned. */
  ghost predicate Continues(log: seq<Post>, messages: seq<Message>, s: Setup)
    requires log != []
  {
    var (n, p) := (|log| - 1, log[|log| - 1]);
    && Success(p.reply) && p.reply.stop == "tool_use"
    && |messages| == |p.messages| + 2 && p.messages < messages
    && messages[|p.messages|] == Assistant(p.reply.blocks)
    && messages[|p.messages| + 1].Results?
    && Delivers(messages[|p.messages| + 1].results, p.reply.blocks, s.tool, s.first + Calls(log[..n]))
  }

  /** A request may be sent now: the prompt, the continued conversation, or after a retryable failure the same again,
      with the tokens that are left but no more than the model's limit. */
  ghost predicate MaySend(log: seq<Post>, messages: seq<Message>, maxTokens: int, s: Setup) {
    && WellFormed(messages) && FailRun(log) <= 3
    && 1 <= maxTokens == (if s.budget - Spent(log) < 8096 then s.budget - Spent(log) else 8096)
    && if log == [] then messages == [Prompt(s.prompt)]
       else if Success(log[|log| - 1].reply) then Continues(log, messages, s)
       else Retryable(log[|log| - 1].reply) && messages == log[|log| - 1].messages
  }

  ghost predicate Legal(log: seq<Post>, s: Setup) {
    log == [] || (var (n, p) := (|log| - 1, log[|log| - 1]);
                  Legal(log[..n], s) && MaySend(log[..n], p.messages, p.maxTokens, s))
  }

  /** Every request of a legal log: a well-formed conversation, and a token limit that fits what is left. */
  lemma {:induction false} EveryRequest(log: seq<Post>, s: Setup, k: nat)
    requires Legal(log, s) && k < |log|
    ensures MaySend(log[..k], log[k].messages, log[k].maxTokens, s)
  {
    var n := |log| - 1;
    if k < n {
      EveryRequest(log[..n], s, k);
      assert log[..n][..k] == log[..k];
    }
  }

  /** No conversation is ever rewritten: an earlier request's messages start every later one's. */
  lemma {:induction false} ConversationsGrow(log: seq<Post>, s: Setup, i: nat, j: nat)
    requires Legal(log, s) && i <= j < |log|
    ensures log[i].messages <= log[j].messages
    ensures log[i].messages == log[j].messages ==> forall k :: i <= k < j ==> !Success(log[k].reply)
    decreases j - i
  {
    hide WellFormed, Spent, FailRun, Calls, Delivers, Success, Retryable;
    if i < j {
      ConversationsGrow(log, s, i, j - 1);
      EveryRequest(log, s, j);
      assert log[..j][|log[..j]| - 1] == log[j - 1];
    }
  }

  lemma {:induction false} SpentGrows(log: seq<Post>)
    requires forall k :: 0 <= k < |log| && Success(log[k].reply) ==> log[k].reply.tokens >= 1
    ensures Spent(log) >= Successes(log)
  {
    if log != [] { SpentGrows(log[..|log| - 1]); }
  }

  function Successes(log: seq<Post>): nat {
    if log == [] then 0 else Successes(log[..|log| - 1]) + if Success(log[|log| - 1].reply) then 1 else 0
  }

  lemma {:induction false} FourPerSuccess(log: seq<Post>, s: Setup)
    requires Legal(log, s)
    ensures |log| <= 4 * Successes(log) + FailRun(log) && FailRun(log) <= 4
  {
    hide WellFormed;
    if log != [] { FourPerSuccess(log[..|log| - 1], s); }
  }

  /** When every answered request costs at least one token, a budget of `b` pays for at most `b` answers and
      `4b` requests in all. */
  lemma RequestsAreBounded(log: seq<Post>, s: Setup)
    requires Legal(log, s) && forall k :: 0 <= k < |log| && Success(log[k].reply) ==> log[k].reply.tokens >= 1
    ensures log != [] ==> Successes(log) <= s.budget && |log| <= 4 * s.budget
  {
    hide WellFormed;
    if log != [] {
      FourPerSuccess(log, s);
      SpentGrows(log[..|log| - 1]);
    }
  }

  /** The log holds one answer of the endpoint per request sent, from the request number `first` on. */
  ghost predicate SentAs(log: seq<Post>, replies: nat -> Reply, first: nat) {
    forall k :: 0 <= k < |log| ==> log[k].reply == replies(first + k)
  }

  lemma SentMore(log: seq<Post>, p: Post, replies: nat -> Reply, first: nat)
    requires SentAs(log, replies, first) && p.reply == replies(first + |log|)
    ensures SentAs(log + [p], replies, first)
  {
  }

  lemma AppendPost(log: seq<Post>, p: Post, s: Setup)
    requires Legal(log, s) && MaySend(log, p.messages, p.maxTokens, s)
    ensures Legal(log + [p], s)
    ensures Calls(log + [p])
            == Calls(log) + if Success(p.reply) && p.reply.stop == "tool_use" then |Uses(p.reply.blocks)| else 0
    ensures Spent(log + [p]) == Spent(log) + if Success(p.reply) then p.reply.tokens else 0
    ensures FailRun(log + [p]) == if Success(p.reply) then 0 else FailRun(log) + 1
    ensures Texts(log + [p]) == Texts(log) + if Success(p.reply) then TextsIn(p.reply.blocks) else []
    ensures Successes(log + [p]) == Successes(log) + if Success(p.reply) then 1 else 0
  {
    hide MaySend;
    assert (log + [p])[..|log|] == log;
  }

  lemma NothingDelivered(tool: Tool, first: nat)
    ensures Delivers([], [], tool, first) && Uses([]) == [] && Ids([]) == ToolIds([])
  {
  }

  lemma UsesMore(blocks: seq<Block>, b: Block)
    ensures Uses(blocks + [b]) == Uses(blocks) + if b.ToolUse? then [b] else []
    ensures ToolIds(blocks + [b]) == ToolIds(blocks) + if b.ToolUse? then [b.id] else []
  {
    assert (blocks + [b])[..|blocks|] == blocks;
  }

  lemma IdsMore(results: seq<ToolResult>, r: ToolResult)
    ensures Ids(results + [r]) == Ids(results) + [r.toolUseId]
  {
    assert (results + [r])[..|results|] == results;
  }

  lemma DeliversMore(results: seq<ToolResult>, blocks: seq<Block>, b: Block, tool: Tool, first: nat)
    requires Delivers(results, blocks, tool, first) && Ids(results) == ToolIds(blocks)
    ensures |Uses(blocks + [b])| == |Uses(blocks)| + if b.ToolUse? then 1 else 0
    ensures var more := if b.ToolUse? then [ToolResult(b.id, tool(first + |Uses(blocks)|, b.name, b.input))] else [];
            (if b.ToolUse? then Delivers(results + more, blocks + [b], tool, first)
                                && Ids(results + more) == ToolIds(blocks + [b])
             else Delivers(results, blocks + [b], tool, first) && Ids(results) == ToolIds(blocks + [b]))
  {
    hide Uses, Ids, ToolIds;
    UsesMore(blocks, b);
    if b.ToolUse? { IdsMore(results, ToolResult(b.id, tool(first + |Uses(blocks)|, b.name, b.input))); }
  }

  /** The conversation after a successful answer and the results of its tool uses. */
  lemma ExtendedContinues(log: seq<Post>, results: seq<ToolResult>, s: Setup)
    requires log != [] && Success(log[|log| - 1].reply) && log[|log| - 1].reply.stop == "tool_use"
    requires Delivers(results, log[|log| - 1].reply.blocks, s.tool, s.first + Calls(log[..|log| - 1]))
    ensures Continues(log, log[|log| - 1].messages + [Assistant(log[|log| - 1].reply.blocks), Results(results)], s)
  {
    hide Delivers;
  }

  lemma Extended(ms: seq<Message>, blocks: seq<Block>, results: seq<ToolResult>)
    requires WellFormed(ms) && Ids(results) == ToolIds(blocks)
    ensures WellFormed(ms + [Assistant(blocks), Results(results)])
  {
    hide Ids, ToolIds;
  }

  /** The body kept of an error answer holds nothing credential-like. */
  function ErrorBody(body: string): string { Cut(Redaction.Redacted(Cut(body))) }

  function Cut(s: string): string { if |s| > 8192 then s[..8192] else s }

  lemma ErrorBodyIsClean(body: string)
    ensures |ErrorBody(body)| <= 8192
    ensures forall p :: p in Redaction.PATTERNS ==> Redaction.Free(ErrorBody(body), p)
  {
    hide Redaction.Redacted, Redaction.Free;
    var r := Redaction.Redacted(Cut(body));
    Redaction.RedactedIsClean(Cut(body));
    if |r| > 8192 {
      forall p | p in Redaction.PATTERNS ensures Redaction.Free(r[..8192], p) { Redaction.FreeSlice(r, p, 0, 8192); }
    }
  }

  /** What is kept is the start of the redacted start of the body; a short clean body is kept whole. */
  lemma ErrorBodyKept(body: string)
    ensures ErrorBody(body) <= Redaction.Redacted(if |body| > 8192 then body[..8192] else body)
    ensures |ErrorBody(body)| < 8192 ==>
              ErrorBody(body) == Redaction.Redacted(if |body| > 8192 then body[..8192] else body)
    ensures |body| <= 8192 && (forall p :: p in Redaction.PATTERNS ==> Redaction.Free(body, p)) ==>
              ErrorBody(body) == body
  {
    hide Redaction.Redacted, Redaction.Free;
    Redaction.RedactedIsClean(body);
  }

  // ------------------------------------------------------------------ the loop

  /** How `_call_api` ends; an empty list of retry delays makes the first retry an index error. */
  datatype CallResult = Answered(reply: Reply) | ApiError(status: int, body: string) | IndexError

  datatype Ending =
    | BudgetExceeded(raw: string, totalTokens: int, messages: seq<Message>)
    | Stopped(stop: string, raw: string, totalTokens: int, messages: seq<Message>)
    | Failed(status: int, body: string)
    | Crashed
    | StillRunning

  class AgentHarness {
    const tokenBudget: int
    const retryDelays: seq<nat>
    const replies: nat -> Reply
    const tool: Tool
    var posts: nat
    var dispatched: nat
    ghost var log: seq<Post>

    constructor (tokenBudget: int, retryDelays: seq<nat>, replies: nat -> Reply, tool: Tool)
      ensures log == [] && this.tokenBudget == tokenBudget && this.retryDelays == retryDelays
      ensures this.replies == replies && this.tool == tool
    {
      this.tokenBudget, this.retryDelays, this.replies, this.tool := tokenBudget, retryDelays, replies, tool;
      posts, dispatched, log := 0, 0, [];
    }

    method Send(messages: seq<Message>, maxTokens: int, ghost s: Setup) returns (reply: Reply)
      requires Legal(log, s) && MaySend(log, messages, maxTokens, s)
      requires posts >= |log| && SentAs(log, replies, posts - |log|)
      modifies `posts, `log
      ensures reply == replies(old(posts)) && posts == old(posts) + 1
      ensures log == old(log) + [Post(messages, maxTokens, reply)] && Legal(log, s)
      ensures posts - |log| == old(posts) - |old(log)| && SentAs(log, replies, posts - |log|)
      ensures Spent(log) == Spent(old(log)) + if Success(reply) then reply.tokens else 0
      ensures FailRun(log) == if Success(reply) then 0 else FailRun(old(log)) + 1
      ensures Texts(log) == Texts(old(log)) + if Success(reply) then TextsIn(reply.blocks) else []
      ensures Successes(log) == Successes(old(log)) + if Success(reply) then 1 else 0
      ensures Calls(log)
              == Calls(old(log)) + if Success(reply) && reply.stop == "tool_use" then |Uses(reply.blocks)| else 0
    {
      hide MaySend, Legal, SentAs, Spent, FailRun, Texts, Successes, Calls, Uses;
      reply := replies(posts);
      SentMore(log, Post(messages, maxTokens, reply), replies, posts - |log|);
      AppendPost(log, Post(messages, maxTokens, reply), s);
      log := log + [Post(messages, maxTokens, reply)];
      posts := posts + 1;
    }

    /** `_call_api`: up to four times the same request; only a success is returned, and only it is paid for. */
    method CallApi(messages: seq<Message>, maxTokens: int, ghost s: Setup) returns (r: CallResult)
      requires Legal(log, s) && FailRun(log) == 0 && MaySend(log, messages, maxTokens, s)
      modifies `posts, `log
      ensures Legal(log, s) && log != [] && |old(log)| < |log| <= |old(log)| + 4
      requires posts >= |log| && SentAs(log, replies, posts - |log|)
      ensures posts - |log| == old(posts) - |old(log)| && SentAs(log, replies, posts - |log|)
      ensures var last := log[|log| - 1];
              && last.messages == messages && last.maxTokens == maxTokens
              && (r.Answered? <==> Success(last.reply)) && (r.Answered? ==> r.reply == last.reply)
              && (r.ApiError? ==> r.status == last.reply.status && r.body == ErrorBody(last.reply.body))
              && (r.ApiError? && Retryable(last.reply) ==> |log| == |old(log)| + 4)
              && (r.IndexError? <==> retryDelays == [] && Retryable(log[|old(log)|].reply))
              && (r.IndexError? ==> |log| == |old(log)| + 1 && Retryable(last.reply))
              && (r.Answered? ==> Calls(log) == Calls(log[..|log| - 1])
                                                + if r.reply.stop == "tool_use" then |Uses(r.reply.blocks)| else 0)
              && (r.Answered? ==> Calls(log[..|log| - 1]) == Calls(old(log)))
      ensures r.Answered? ==> (exists n :: r.reply == replies(n)) && FailRun(log) == 0
      ensures r.Answered? ==> Spent(log) == Spent(old(log)) + r.reply.tokens
      ensures r.Answered? ==> Texts(log) == Texts(old(log)) + TextsIn(r.reply.blocks)
      ensures r.Answered? ==> Successes(log) == Successes(old(log)) + 1
    {
      hide Legal, WellFormed, Spent, Texts, Successes, FailRun, ErrorBody, SentAs, ToolIds, Calls, Uses, Delivers,
        Continues;
      var last := Reply(0, "", 0, [], "");
      for attempt := 0 to MAX_RETRIES + 1
        invariant Legal(log, s) && |log| == |old(log)| + attempt && FailRun(log) == attempt
        invariant Calls(log) == Calls(old(log)) && old(log) <= log
        invariant attempt > 0 ==> retryDelays != []
        invariant posts - |log| == old(posts) - |old(log)| && SentAs(log, replies, posts - |log|)
        invariant attempt <= MAX_RETRIES ==> MaySend(log, messages, maxTokens, s)
        invariant attempt > 0 ==> log[|log| - 1] == Post(messages, maxTokens, last) && Retryable(last)
        invariant Spent(log) == Spent(old(log)) && Texts(log) == Texts(old(log))
        invariant Successes(log) == Successes(old(log))
      {
        ghost var before := log;
        last := Send(messages, maxTokens, s);
        assert log[..|log| - 1] == before;
        if Retryable(last) {
          if attempt < MAX_RETRIES {
            if |retryDelays| == 0 { return IndexError; }
          }
        } else if last.status >= 400 {
          return ApiError(last.status, ErrorBody(last.body));
        } else {
          return Answered(last);
        }
      }
      return ApiError(last.status, ErrorBody(last.body));
    }

    /** One result per tool use, in order, with the text the tool returned for it. */
    method Dispatch(blocks: seq<Block>) returns (results: seq<ToolResult>)
      modifies `dispatched
      ensures Ids(results) == ToolIds(blocks)
      ensures Delivers(results, blocks, tool, old(dispatched)) && dispatched == old(dispatched) + |Uses(blocks)|
    {
      hide Delivers, Uses, Ids, ToolIds;
      results := [];
      NothingDelivered(tool, dispatched);
      for i := 0 to |blocks|
        invariant Ids(results) == ToolIds(blocks[..i])
        invariant Delivers(results, blocks[..i], tool, old(dispatched))
        invariant dispatched == old(dispatched) + |Uses(blocks[..i])|
      {
        assert blocks[..i + 1] == blocks[..i] + [blocks[i]];
        DeliversMore(results, blocks[..i], blocks[i], tool, old(dispatched));
        if blocks[i].ToolUse? {
          var text := tool(dispatched, blocks[i].name, blocks[i].input);
          dispatched := dispatched + 1;
          results := results + [ToolResult(blocks[i].id, text)];
        }
      }
      assert blocks[..|blocks|] == blocks;
    }

    method CollectTexts(parts: seq<string>, blocks: seq<Block>) returns (all: seq<string>)
      ensures all == parts + TextsIn(blocks)
    {
      all := parts;
      for i := 0 to |blocks|
        invariant all == parts + TextsIn(blocks[..i])
      {
        assert blocks[..i + 1][..i] == blocks[..i];
        if blocks[i].Text? && blocks[i].text != "" { all := all + [blocks[i].text]; }
      }
      assert blocks[..|blocks|] == blocks;
    }

    /** `run`, followed for at most `calls` answered calls. The log is legal throughout; the run ends when the
        budget is used up or the model stops; and it does end within `budget` calls when every answer costs at
        least one token. */
    method Run(prompt: string, calls: nat) returns (ending: Ending)
      modifies this
      ensures Legal(log, Setup(tokenBudget, tool, old(dispatched), prompt))
      ensures posts == old(posts) + |log| && SentAs(log, replies, old(posts))
      ensures ending.StillRunning? ==> Successes(log) == calls && Spent(log) < tokenBudget
      ensures (forall n :: replies(n).tokens >= 1) && calls >= tokenBudget ==> !ending.StillRunning?
      ensures ending.BudgetExceeded? ==>
        && Spent(log) >= tokenBudget && WellFormed(ending.messages)
        && (log == [] ==> ending.messages == [Prompt(prompt)])
        && (log != [] ==> Continues(log, ending.messages, Setup(tokenBudget, tool, old(dispatched), prompt)))
      ensures ending.Stopped? ==> log != [] && Success(log[|log| - 1].reply)
                                  && ending.stop == log[|log| - 1].reply.stop != "tool_use"
                                  && ending.messages == log[|log| - 1].messages
      ensures ending.BudgetExceeded? || ending.Stopped? ==>
                ending.totalTokens == Spent(log) && ending.raw == Join(Texts(log))
      ensures ending.Failed? ==> log != [] && !Success(log[|log| - 1].reply)
                                 && ending.status == log[|log| - 1].reply.status
                                 && ending.body == ErrorBody(log[|log| - 1].reply.body)
      ensures ending.Crashed? ==> retryDelays == [] && log != [] && Retryable(log[|log| - 1].reply)
    {
      hide Legal, WellFormed, Spent, Texts, Successes, FailRun, ErrorBody, Join, Success, SentAs, ToolIds, Calls,
        Uses, Delivers, Continues;
      ghost var s := Setup(tokenBudget, tool, dispatched, prompt);
      log := [];
      assert SentAs(log, replies, posts) by { NothingSent(replies, posts); }
      EmptyLog(s);
      var messages := [Prompt(prompt)];
      var cumulative, parts := 0, [];
      for call := 0 to calls
        invariant Legal(log, s) && WellFormed(messages) && FailRun(log) == 0
        invariant dispatched == s.first + Calls(log)
        invariant posts == old(posts) + |log| && SentAs(log, replies, old(posts))
        invariant Successes(log) == call && cumulative == Spent(log) && parts == Texts(log)
        invariant (forall n :: replies(n).tokens >= 1) ==> cumulative >= call
        invariant if log == [] then messages == [Prompt(prompt)]
                  else Success(log[|log| - 1].reply) && Continues(log, messages, s)
      {
        var remaining := tokenBudget - cumulative;
        if remaining <= 0 { return BudgetExceeded(Join(parts), cumulative, messages); }
        var maxTokens := if remaining < MODEL_CAP then remaining else MODEL_CAP;
        var r := CallApi(messages, maxTokens, s);
        if r.ApiError? { return Failed(r.status, r.body); }
        if r.IndexError? { return Crashed; }
        cumulative := cumulative + r.reply.tokens;
        parts := CollectTexts(parts, r.reply.blocks);
        if r.reply.stop != "tool_use" { return Stopped(r.reply.stop, Join(parts), cumulative, messages); }
        var results := Dispatch(r.reply.blocks);
        Extended(messages, r.reply.blocks, results);
        ExtendedContinues(log, results, s);
        messages := messages + [Assistant(r.reply.blocks), Results(results)];
      }
      if tokenBudget - cumulative <= 0 { return BudgetExceeded(Join(parts), cumulative, messages); }
      return StillRunning;
    }
  }

  lemma NothingSent(replies: nat -> Reply, first: nat)
    ensures SentAs([], replies, first)
  {
  }

  lemma EmptyLog(s: Setup)
    ensures Legal([], s) && Spent([]) == 0 && Texts([]) == [] && Successes([]) == 0
    ensures FailRun([]) == 0 && Calls([]) == 0
    ensures WellFormed([Prompt(s.prompt)])
  {
  }
}
