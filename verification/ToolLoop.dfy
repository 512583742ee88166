/** The bot's tool-use conversation: the bounded loop with its message history, and the summary of
    the tools it used. */
module ToolLoop {
  import opened Base
  import Strconv

  const TOOL_USE: string := "tool_use"
  const RESULT_LIMIT: nat := 8000

  datatype Block = Text(text: string) | ToolUse(id: string, name: string, input: string) | OtherBlock

  datatype Reply = Reply(stopReason: string, content: seq<Block>)

  datatype ToolResult = ToolResult(toolUseId: string, content: string)

  /** Question and Results are user turns. */
  datatype Message = Question(text: string) | Assistant(content: seq<Block>) | Results(results: seq<ToolResult>)

  datatype Answer = Answer(text: string, toolCallsMade: int, toolsUsed: seq<string>)

  /** The model call raised. */
  datatype Failure = ApiError

  // ---------- reading a reply ----------

  function ToolBlocks(content: seq<Block>): seq<Block> {
    if content == [] then []
    else
      var n := |content| - 1;
      ToolBlocks(content[..n]) + if content[n].ToolUse? then [content[n]] else []
  }

  function ToolNames(content: seq<Block>): seq<string> {
    if content == [] then []
    else
      var n := |content| - 1;
      ToolNames(content[..n]) + if content[n].ToolUse? then [content[n].name] else []
  }

  function JoinedText(content: seq<Block>): string {
    if content == [] then ""
    else
      var n := |content| - 1;
      JoinedText(content[..n]) + if content[n].Text? then content[n].text else ""
  }

  lemma {:induction false} TextAppend(a: seq<Block>, b: seq<Block>)
    ensures JoinedText(a + b) == JoinedText(a) + JoinedText(b)
    decreases b
  {
    if b == [] {
      assert a + b == a;
    } else {
      assert (a + b)[..|a + b| - 1] == a + b[..|b| - 1];
      TextAppend(a, b[..|b| - 1]);
    }
  }

  lemma {:induction false} CallsAppend(a: seq<Block>, b: seq<Block>)
    ensures ToolBlocks(a + b) == ToolBlocks(a) + ToolBlocks(b)
    decreases b
  {
    if b == [] {
      assert a + b == a;
    } else {
      assert (a + b)[..|a + b| - 1] == a + b[..|b| - 1];
      CallsAppend(a, b[..|b| - 1]);
    }
  }

  lemma {:induction false} NamesAppend(a: seq<Block>, b: seq<Block>)
    ensures ToolNames(a + b) == ToolNames(a) + ToolNames(b)
    decreases b
  {
    if b == [] {
      assert a + b == a;
    } else {
      assert (a + b)[..|a + b| - 1] == a + b[..|b| - 1];
      NamesAppend(a, b[..|b| - 1]);
    }
  }

  /** Reading a reply goes from its first block to its last: the text is the text blocks' texts joined
      with nothing between, and the calls and names are those of the tool-use blocks. */
  lemma ReadInOrder(a: seq<Block>, b: seq<Block>)
    ensures JoinedText(a + b) == JoinedText(a) + JoinedText(b)
    ensures ToolBlocks(a + b) == ToolBlocks(a) + ToolBlocks(b)
    ensures ToolNames(a + b) == ToolNames(a) + ToolNames(b)
  {
    TextAppend(a, b);
    CallsAppend(a, b);
    NamesAppend(a, b);
  }

  lemma ReadOne(x: Block)
    ensures JoinedText([]) == "" && ToolBlocks([]) == [] && ToolNames([]) == []
    ensures JoinedText([x]) == if x.Text? then x.text else ""
    ensures ToolBlocks([x]) == if x.ToolUse? then [x] else []
    ensures ToolNames([x]) == if x.ToolUse? then [x.name] else []
  {
    assert [x][..0] == [];
  }

  /** The texts of the text blocks, front to back. */
  function Texts(content: seq<Block>): seq<string> {
    if content == [] then []
    else (if content[0].Text? then [content[0].text] else []) + Texts(content[1..])
  }

  function Join(texts: seq<string>): string {
    if texts == [] then "" else texts[0] + Join(texts[1..])
  }

  lemma {:induction false} TextIsJoin(content: seq<Block>)
    ensures JoinedText(content) == Join(Texts(content))
  {
    if content != [] {
      assert content == [content[0]] + content[1..];
      ReadInOrder([content[0]], content[1..]);
      ReadOne(content[0]);
      TextIsJoin(content[1..]);
      if content[0].Text? {
        assert Texts(content)[1..] == Texts(content[1..]);
      } else {
        assert Texts(content) == Texts(content[1..]);
      }
    }
  }

  /** The names of the tools of several turns, turn after turn. */
  function NamesOf(turns: seq<Reply>): seq<string> {
    if turns == [] then []
    else NamesOf(turns[..|turns| - 1]) + ToolNames(turns[|turns| - 1].content)
  }

  predicate IsSpace(c: char) {
    c == ' ' || '\t' <= c <= '\r' || '\U{1C}' <= c <= '\U{1F}' || c == '\U{85}' || c == '\U{A0}' || c == '\U{1680}'
    || '\U{2000}' <= c <= '\U{200A}' || c == '\U{2028}' || c == '\U{2029}' || c == '\U{202F}' || c == '\U{205F}'
    || c == '\U{3000}'
  }

  function Strip(s: string): (r: string)
    ensures r != "" ==> !IsSpace(r[0]) && !IsSpace(r[|r| - 1])
    decreases |s|
  {
    if s == "" then ""
    else if IsSpace(s[0]) then Strip(s[1..])
    else if IsSpace(s[|s| - 1]) then Strip(s[..|s| - 1])
    else s
  }

  predicate Spaces(s: string) {
    forall i :: 0 <= i < |s| ==> IsSpace(s[i])
  }

  lemma Peel(c: char, before: string, middle: string, after: string)
    ensures [c] + (before + middle + after) == ([c] + before) + middle + after
    ensures (before + middle + after) + [c] == before + middle + (after + [c])
  {
  }

  /** Stripping takes spaces off both ends and nothing else. */
  lemma {:induction false} StripIs(s: string) returns (before: string, after: string)
    ensures s == before + Strip(s) + after
    ensures Spaces(before) && Spaces(after)
    decreases |s|
  {
    before, after := "", "";
    var n := |s| - 1;
    if s != "" && IsSpace(s[0]) {
      before, after := StripIs(s[1..]);
      Peel(s[0], before, Strip(s[1..]), after);
      before := [s[0]] + before;
    } else if s != "" && IsSpace(s[n]) {
      before, after := StripIs(s[..n]);
      Peel(s[n], before, Strip(s[..n]), after);
      after := after + [s[n]];
    }
  }

  /** range(limit) is empty for a negative limit. */
  function Rounds(limit: int): nat {
    if limit < 0 then 0 else limit
  }

  function BailText(limit: int): string {
    ":warning: I hit my tool-use iteration limit (" + Strconv.FormatInt(limit)
    + "). Last context above may still help. Try a more specific question."
  }

  // ---------- what a well-formed history is ----------

  /** The results answer the tool-use blocks: same ids, same order, nothing over the limit. */
  ghost predicate Answers(results: seq<ToolResult>, content: seq<Block>) {
    var calls := ToolBlocks(content);
    && |results| == |calls|
    && forall i :: 0 <= i < |results| ==>
         calls[i].ToolUse? && results[i].toolUseId == calls[i].id && |results[i].content| <= 8000
  }

  /** The question, then for each turn the assistant's tool use and the results for it. */
  ghost predicate Conversation(messages: seq<Message>, question: string, turns: seq<Reply>)
    decreases turns
  {
    if turns == [] then messages == [Question(question)]
    else
      var n, m := |turns| - 1, |messages|;
      && m >= 3
      && Conversation(messages[..m - 2], question, turns[..n])
      && turns[n].stopReason == TOOL_USE
      && messages[m - 2] == Assistant(turns[n].content)
      && messages[m - 1].Results?
      && Answers(messages[m - 1].results, turns[n].content)
  }

  /** After k complete rounds the history has 1 + 2k messages: the question first, assistant turns at
      the odd places, user turns at the even ones, and right after each assistant turn the results
      for its tool-use ids in order. */
  lemma {:induction false} HistoryAlternates(messages: seq<Message>, question: string, turns: seq<Reply>)
    requires Conversation(messages, question, turns)
    ensures |messages| == 1 + 2 * |turns|
    ensures messages[0] == Question(question)
    ensures forall k :: 0 <= k < |turns| ==>
              && turns[k].stopReason == "tool_use"
              && messages[1 + 2 * k] == Assistant(turns[k].content)
              && messages[2 + 2 * k].Results?
              && Answers(messages[2 + 2 * k].results, turns[k].content)
    decreases turns
  {
    if turns != [] {
      var n, m := |turns| - 1, |messages|;
      HistoryAlternates(messages[..m - 2], question, turns[..n]);
      forall k | 0 <= k < |turns|
        ensures messages[1 + 2 * k] == Assistant(turns[k].content)
        ensures messages[2 + 2 * k].Results? && Answers(messages[2 + 2 * k].results, turns[k].content)
        ensures turns[k].stopReason == TOOL_USE
      {
        if k < n {
          assert messages[1 + 2 * k] == messages[..m - 2][1 + 2 * k];
          assert messages[2 + 2 * k] == messages[..m - 2][2 + 2 * k];
          assert turns[k] == turns[..n][k];
        }
      }
    }
  }

  /** The model call after these rounds raised. */
  ghost predicate EndsInError(messages: seq<Message>, question: string, turns: seq<Reply>,
                              replies: seq<Option<Reply>>, limit: int)
  {
    var n := |turns|;
    n < limit && n < |replies| && replies[n] == None && Conversation(messages, question, turns)
  }

  /** The reply after these rounds was the final answer. */
  ghost predicate EndsInAnswer(a: Answer, messages: seq<Message>, question: string, turns: seq<Reply>,
                               replies: seq<Option<Reply>>, limit: int)
  {
    var n := |turns|;
    && n < limit && n < |replies| && replies[n].Some?
    && replies[n].value.stopReason != TOOL_USE
    && messages != []
    && messages[|messages| - 1] == Assistant(replies[n].value.content)
    && Conversation(messages[..|messages| - 1], question, turns)
    && a.text == Strip(JoinedText(replies[n].value.content))
    && a.toolCallsMade == n
  }

  /** These rounds used the limit up. */
  ghost predicate EndsAtLimit(a: Answer, messages: seq<Message>, question: string, turns: seq<Reply>, limit: int) {
    && |turns| == Rounds(limit)
    && Conversation(messages, question, turns)
    && a.text == BailText(limit)
    && a.toolCallsMade == limit
  }

  /** How the loop ended, and that its complete rounds are the model's first replies. */
  ghost predicate Finished(r: Result<Answer, Failure>, messages: seq<Message>, question: string, turns: seq<Reply>,
                           replies: seq<Option<Reply>>, limit: int)
  {
    && |turns| <= |replies|
    && (forall k :: 0 <= k < |turns| ==> replies[k] == Some(turns[k]))
    && match r
       case Err(_) => EndsInError(messages, question, turns, replies, limit)
       case Ok(a) =>
         && a.toolsUsed == NamesOf(turns)
         && (|| EndsInAnswer(a, messages, question, turns, replies, limit)
             || EndsAtLimit(a, messages, question, turns, limit))
  }

  lemma ConversationGrows(messages: seq<Message>, question: string, turns: seq<Reply>, resp: Reply,
                          results: seq<ToolResult>)
    requires Conversation(messages, question, turns)
    requires resp.stopReason == TOOL_USE && Answers(results, resp.content)
    ensures Conversation(messages + [Assistant(resp.content)] + [Results(results)], question, turns + [resp])
  {
    var longer := messages + [Assistant(resp.content)] + [Results(results)];
    assert |longer| >= 3 by {
      HistoryAlternates(messages, question, turns);
    }
    assert longer[..|longer| - 2] == messages;
    assert (turns + [resp])[..|turns|] == turns;
  }

  lemma NamesGrow(turns: seq<Reply>, resp: Reply)
    ensures NamesOf([]) == []
    ensures NamesOf(turns + [resp]) == NamesOf(turns) + ToolNames(resp.content)
  {
  }

  // ---------- the loop ----------

  /** Runs every tool of one turn. `dispatch` is the world's answer to the n-th tool call. */
  method RunTools(content: seq<Block>, dispatch: (string, string, nat) -> string, used: seq<string>)
    returns (results: seq<ToolResult>, usedAfter: seq<string>)
    ensures usedAfter == used + ToolNames(content)
    ensures Answers(results, content)
    ensures forall i :: 0 <= i < |results| ==>
              var call := ToolBlocks(content)[i];
              && call.ToolUse?
              && var out := dispatch(call.name, call.input, |used| + i);
                 results[i].content == if |out| <= 8000 then out else out[..8000]
  {
    results, usedAfter := [], used;
    var i := 0;
    while i < |content|
      invariant 0 <= i <= |content|
      invariant usedAfter == used + ToolNames(content[..i])
      invariant |usedAfter| == |used| + |results|
      invariant Answers(results, content[..i])
      invariant forall j :: 0 <= j < |results| ==>
                  var call := ToolBlocks(content[..i])[j];
                  && call.ToolUse?
                  && results[j].content == First(dispatch(call.name, call.input, |used| + j), RESULT_LIMIT)
    {
      assert content[..i + 1][..i] == content[..i];
      var block := content[i];
      if block.ToolUse? {
        var out := dispatch(block.name, block.input, |usedAfter|);
        usedAfter := usedAfter + [block.name];
        results := results + [ToolResult(block.id, First(out, RESULT_LIMIT))];
      }
      i := i + 1;
    }
    assert content[..|content|] == content;
  }

  /** For every sequence of model replies, failures included: at most `limit` model calls are made,
      user and assistant alternate, each tool-use turn is followed by results for exactly its ids,
      the tools used are those of the complete rounds in order, and the count reported is the number
      of complete rounds, except that a negative limit is itself reported. */
  method AnswerQuestion(question: string, limit: int, replies: seq<Option<Reply>>,
                        dispatch: (string, string, nat) -> string)
    returns (r: Result<Answer, Failure>, messages: seq<Message>, turns: seq<Reply>, asked: nat)
    requires |replies| >= limit
    ensures Finished(r, messages, question, turns, replies, limit)
    ensures asked == if |turns| == Rounds(limit) then |turns| else |turns| + 1
    ensures asked <= Rounds(limit)
    ensures r.Ok? && |turns| < Rounds(limit) ==>
              && replies[|turns|].Some? && replies[|turns|].value.stopReason != "tool_use"
              && r.value.text == Strip(Join(Texts(replies[|turns|].value.content)))
              && (Texts(replies[|turns|].value.content) == [] ==> r.value.text == "")
    ensures r.Ok? && |turns| == Rounds(limit) ==>
              r.value.text == ":warning: I hit my tool-use iteration limit (" + Strconv.FormatInt(limit)
                              + "). Last context above may still help. Try a more specific question."
  {
    messages := [Question(question)];
    turns, asked := [], 0;
    var toolsUsed: seq<string> := [];
    var i := 0;
    while i < limit
      invariant 0 <= i <= Rounds(limit)
      invariant asked == |turns| == i
      invariant Conversation(messages, question, turns)
      invariant toolsUsed == NamesOf(turns)
      invariant forall k :: 0 <= k < i ==> replies[k] == Some(turns[k])
    {
      asked := asked + 1;
      if replies[i].None? {
        r := Err(ApiError);
        assert EndsInError(messages, question, turns, replies, limit);
        return;
      }
      var resp := replies[i].value;
      ghost var before := messages;
      messages := messages + [Assistant(resp.content)];
      if resp.stopReason != TOOL_USE {
        assert messages[..|messages| - 1] == before;
        r := Ok(Answer(Strip(JoinedText(resp.content)), i, toolsUsed));
        TextIsJoin(resp.content);
        assert EndsInAnswer(r.value, messages, question, turns, replies, limit);
        return;
      }
      var results;
      results, toolsUsed := RunTools(resp.content, dispatch, toolsUsed);
      messages := messages + [Results(results)];
      ConversationGrows(before, question, turns, resp, results);
      NamesGrow(turns, resp);
      turns := turns + [resp];
      i := i + 1;
    }
    r := Ok(Answer(BailText(limit), limit, toolsUsed));
    assert EndsAtLimit(r.value, messages, question, turns, limit);
  }

  // ---------- rounds against tools ----------

  /** If every turn asks for at least one tool, the reported count never exceeds the tools used, and
      equals it exactly when every turn asked for just one. */
  lemma {:induction false} RoundsAndTools(turns: seq<Reply>)
    requires forall k :: 0 <= k < |turns| ==> ToolNames(turns[k].content) != []
    ensures |turns| <= |NamesOf(turns)|
    ensures |turns| == |NamesOf(turns)| <==> forall k :: 0 <= k < |turns| ==> |ToolNames(turns[k].content)| == 1
  {
    if turns != [] {
      var n := |turns| - 1;
      RoundsAndTools(turns[..n]);
      assert forall k :: 0 <= k < n ==> turns[..n][k] == turns[k];
      assert |ToolNames(turns[n].content)| >= 1;
    }
  }

  /** One round with two tools counts one call for two tools used; one that stops for tools but names
      none counts one call for none. */
  lemma RoundsMiscount()
    ensures var two := Reply(TOOL_USE, [ToolUse("1", "a", ""), ToolUse("2", "b", "")]);
            |[two]| == 1 && NamesOf([two]) == ["a", "b"]
    ensures |[Reply(TOOL_USE, [])]| == 1 && NamesOf([Reply(TOOL_USE, [])]) == []
  {
    var content := [ToolUse("1", "a", ""), ToolUse("2", "b", "")];
    assert content[..1] == [ToolUse("1", "a", "")];
    assert ToolNames(content[..1]) == ["a"];
    var two := Reply(TOOL_USE, content);
    assert NamesOf([two][..0]) == [];
  }

  // ---------- the summary ----------

  datatype Entry = Entry(name: string, count: nat)

  /** Position of a name's entry, or the length when it has none. */
  function Find(entries: seq<Entry>, name: string): (i: nat)
    ensures i <= |entries|
    ensures i < |entries| ==> entries[i].name == name
    ensures forall k :: 0 <= k < i ==> entries[k].name != name
  {
    if entries == [] || entries[0].name == name then 0 else 1 + Find(entries[1..], name)
  }

  /** One more use of a name; a new name goes last. */
  function Bump(entries: seq<Entry>, name: string): seq<Entry> {
    var i := Find(entries, name);
    if i == |entries| then entries + [Entry(name, 1)]
    else entries[i := Entry(name, entries[i].count + 1)]
  }

  /** How often a name occurs. */
  function Uses(tools: seq<string>, name: string): nat {
    if tools == [] then 0
    else
      var n := |tools| - 1;
      Uses(tools[..n], name) + if tools[n] == name then 1 else 0
  }

  lemma {:induction false} UsesIsMultiplicity(tools: seq<string>, name: string)
    ensures Uses(tools, name) == multiset(tools)[name]
  {
    if tools != [] {
      var n := |tools| - 1;
      UsesIsMultiplicity(tools[..n], name);
      assert tools == tools[..n] + [tools[n]];
    }
  }

  function Tally(tools: seq<string>): seq<Entry> {
    if tools == [] then [] else Bump(Tally(tools[..|tools| - 1]), tools[|tools| - 1])
  }

  /** Placed before the first entry that is not larger. */
  function Insert(e: Entry, entries: seq<Entry>): seq<Entry> {
    if entries == [] || e.count >= entries[0].count then [e] + entries
    else [entries[0]] + Insert(e, entries[1..])
  }

  /** Largest count first; equal counts keep their order. */
  function MostCommon(entries: seq<Entry>): seq<Entry> {
    if entries == [] then [] else Insert(entries[0], MostCommon(entries[1..]))
  }

  function Breakdown(tools: seq<string>): seq<Entry> {
    MostCommon(Tally(tools))
  }

  function FirstUse(tools: seq<string>, name: string): (i: nat)
    ensures i <= |tools|
    ensures i < |tools| ==> tools[i] == name
    ensures forall k :: 0 <= k < i ==> tools[k] != name
  {
    if tools == [] || tools[0] == name then 0 else 1 + FirstUse(tools[1..], name)
  }

  function Total(entries: seq<Entry>): nat {
    if entries == [] then 0 else entries[0].count + Total(entries[1..])
  }

  ghost predicate Lists(entries: seq<Entry>, name: string) {
    exists k :: 0 <= k < |entries| && entries[k].name == name
  }

  ghost predicate ByFirstUse(entries: seq<Entry>, tools: seq<string>) {
    forall i, j :: 0 <= i < j < |entries| ==> FirstUse(tools, entries[i].name) < FirstUse(tools, entries[j].name)
  }

  /** a comes before b in the summary. */
  ghost predicate Before(a: Entry, b: Entry, tools: seq<string>) {
    a.count > b.count || (a.count == b.count && FirstUse(tools, a.name) < FirstUse(tools, b.name))
  }

  ghost predicate InOrder(entries: seq<Entry>, tools: seq<string>) {
    forall i, j :: 0 <= i < j < |entries| ==> Before(entries[i], entries[j], tools)
  }

  lemma {:induction false} TotalUpdate(entries: seq<Entry>, i: nat, e: Entry)
    requires i < |entries|
    ensures Total(entries[i := e]) == Total(entries) - entries[i].count + e.count
  {
    if i == 0 {
      assert entries[0 := e][1..] == entries[1..];
    } else {
      assert entries[i := e][1..] == entries[1..][i - 1 := e];
      TotalUpdate(entries[1..], i - 1, e);
    }
  }

  lemma {:induction false} TotalAppend(entries: seq<Entry>, e: Entry)
    ensures Total(entries + [e]) == Total(entries) + e.count
  {
    if entries == [] {
      assert [] + [e] == [e];
      assert [e][1..] == [];
    } else {
      assert (entries + [e])[1..] == entries[1..] + [e];
      TotalAppend(entries[1..], e);
    }
  }

  lemma BumpTotal(entries: seq<Entry>, name: string)
    ensures Total(Bump(entries, name)) == Total(entries) + 1
  {
    var i := Find(entries, name);
    if i == |entries| {
      TotalAppend(entries, Entry(name, 1));
    } else {
      TotalUpdate(entries, i, Entry(name, entries[i].count + 1));
    }
  }

  /** FirstUse does not move when the history grows; a new name is first used at its end. */
  lemma FirstUseStable(tools: seq<string>, name: string)
    requires tools != []
    ensures var n := |tools| - 1;
            FirstUse(tools, name) == if FirstUse(tools[..n], name) < n then FirstUse(tools[..n], name)
                                     else if tools[n] == name then n else |tools|
  {
    var n := |tools| - 1;
    assert forall k :: 0 <= k < n ==> tools[..n][k] == tools[k];
  }

  /** Entry k of the tally: a name first used before the end, counted exactly. */
  ghost predicate EntryRight(e: Entry, tools: seq<string>) {
    FirstUse(tools, e.name) < |tools| && e.count == Uses(tools, e.name)
  }

  ghost predicate TallyRight(entries: seq<Entry>, tools: seq<string>) {
    && (forall k :: 0 <= k < |entries| ==> EntryRight(entries[k], tools))
    && ByFirstUse(entries, tools)
    && (forall name :: FirstUse(tools, name) < |tools| ==> Find(entries, name) < |entries|)
  }

  lemma {:induction false} UnusedName(tools: seq<string>, name: string)
    requires FirstUse(tools, name) == |tools|
    ensures Uses(tools, name) == 0
  {
    if tools != [] {
      var n := |tools| - 1;
      FirstUseStable(tools, name);
      UnusedName(tools[..n], name);
    }
  }

  lemma BumpEntry(entries: seq<Entry>, tools: seq<string>, k: nat)
    requires tools != [] && TallyRight(entries, tools[..|tools| - 1])
    requires k < |Bump(entries, tools[|tools| - 1])|
    ensures EntryRight(Bump(entries, tools[|tools| - 1])[k], tools)
  {
    var n := |tools| - 1;
    var i := Find(entries, tools[n]);
    FirstUseStable(tools, Bump(entries, tools[n])[k].name);
    if k < |entries| {
      assert EntryRight(entries[k], tools[..n]);
      DistinctNames(entries, tools[..n]);
    } else {
      UnusedName(tools[..n], tools[n]);
    }
  }

  lemma DistinctNames(entries: seq<Entry>, tools: seq<string>)
    requires ByFirstUse(entries, tools)
    ensures forall i, j :: 0 <= i < j < |entries| ==> entries[i].name != entries[j].name
  {
  }

  lemma BumpKeepsName(entries: seq<Entry>, tools: seq<string>, k: nat)
    requires tools != [] && TallyRight(entries, tools[..|tools| - 1])
    requires k < |entries|
    ensures var n := |tools| - 1;
            && Bump(entries, tools[n])[k].name == entries[k].name
            && FirstUse(tools, entries[k].name) == FirstUse(tools[..n], entries[k].name) < n
  {
    assert EntryRight(entries[k], tools[..|tools| - 1]);
    FirstUseStable(tools, entries[k].name);
  }

  lemma BumpOrder(entries: seq<Entry>, tools: seq<string>)
    requires tools != [] && TallyRight(entries, tools[..|tools| - 1])
    ensures ByFirstUse(Bump(entries, tools[|tools| - 1]), tools)
  {
    var n := |tools| - 1;
    var b := Bump(entries, tools[n]);
    forall i, j | 0 <= i < j < |b|
      ensures FirstUse(tools, b[i].name) < FirstUse(tools, b[j].name)
    {
      BumpKeepsName(entries, tools, i);
      if j < |entries| {
        BumpKeepsName(entries, tools, j);
      } else {
        FirstUseStable(tools, tools[n]);
      }
    }
  }

  lemma BumpFinds(entries: seq<Entry>, tools: seq<string>, name: string)
    requires tools != [] && TallyRight(entries, tools[..|tools| - 1])
    requires FirstUse(tools, name) < |tools|
    ensures Find(Bump(entries, tools[|tools| - 1]), name) < |Bump(entries, tools[|tools| - 1])|
  {
    var n := |tools| - 1;
    var b := Bump(entries, tools[n]);
    FirstUseStable(tools, name);
    var k := if name == tools[n] then Find(entries, tools[n]) else Find(entries, name);
    assert k < |b| && b[k].name == name;
  }

  lemma {:induction false} TallyIsRight(tools: seq<string>)
    ensures TallyRight(Tally(tools), tools)
    ensures Total(Tally(tools)) == |tools|
  {
    if tools != [] {
      var n := |tools| - 1;
      var t := Tally(tools[..n]);
      TallyIsRight(tools[..n]);
      BumpTotal(t, tools[n]);
      BumpOrder(t, tools);
      forall k | 0 <= k < |Bump(t, tools[n])|
        ensures EntryRight(Bump(t, tools[n])[k], tools)
      {
        BumpEntry(t, tools, k);
      }
      forall name | FirstUse(tools, name) < |tools|
        ensures Find(Bump(t, tools[n]), name) < |Bump(t, tools[n])|
      {
        BumpFinds(t, tools, name);
      }
    }
  }

  lemma {:induction false} InsertContents(e: Entry, entries: seq<Entry>)
    ensures forall x :: x in Insert(e, entries) <==> x == e || x in entries
    ensures Total(Insert(e, entries)) == e.count + Total(entries)
  {
    if entries == [] || e.count >= entries[0].count {
      assert ([e] + entries)[1..] == entries;
    } else {
      InsertContents(e, entries[1..]);
      var rest := Insert(e, entries[1..]);
      assert ([entries[0]] + rest)[1..] == rest;
      assert forall x :: x in entries <==> x == entries[0] || x in entries[1..];
    }
  }

  lemma PutFirst(e: Entry, entries: seq<Entry>, tools: seq<string>)
    requires InOrder(entries, tools)
    requires forall x :: x in entries ==> Before(e, x, tools)
    ensures InOrder([e] + entries, tools)
  {
  }

  lemma TailInOrder(entries: seq<Entry>, tools: seq<string>)
    requires entries != [] && InOrder(entries, tools)
    ensures InOrder(entries[1..], tools)
    ensures forall x :: x in entries[1..] ==> Before(entries[0], x, tools)
  {
    forall x | x in entries[1..]
      ensures Before(entries[0], x, tools)
    {
      var k :| 0 <= k < |entries[1..]| && entries[1..][k] == x;
      assert entries[k + 1] == x;
    }
  }

  lemma {:induction false} InsertOrder(e: Entry, entries: seq<Entry>, tools: seq<string>)
    requires InOrder(entries, tools)
    requires forall x :: x in entries ==> FirstUse(tools, e.name) < FirstUse(tools, x.name)
    ensures InOrder(Insert(e, entries), tools)
  {
    if entries != [] {
      TailInOrder(entries, tools);
    }
    if entries == [] || e.count >= entries[0].count {
      assert forall x :: x in entries ==> x == entries[0] || x in entries[1..];
      PutFirst(e, entries, tools);
    } else {
      InsertOrder(e, entries[1..], tools);
      InsertContents(e, entries[1..]);
      PutFirst(entries[0], Insert(e, entries[1..]), tools);
    }
  }

  lemma {:induction false} MostCommonFacts(entries: seq<Entry>, tools: seq<string>)
    requires ByFirstUse(entries, tools)
    ensures InOrder(MostCommon(entries), tools)
    ensures forall x :: x in MostCommon(entries) <==> x in entries
    ensures Total(MostCommon(entries)) == Total(entries)
  {
    if entries != [] {
      MostCommonFacts(entries[1..], tools);
      forall x | x in entries[1..]
        ensures FirstUse(tools, entries[0].name) < FirstUse(tools, x.name)
      {
        var k :| 0 <= k < |entries[1..]| && entries[1..][k] == x;
        assert entries[k + 1] == x;
      }
      InsertOrder(entries[0], MostCommon(entries[1..]), tools);
      InsertContents(entries[0], MostCommon(entries[1..]));
      assert forall x :: x in entries <==> x == entries[0] || x in entries[1..];
    }
  }

  /** The breakdown lists each distinct tool once with its number of uses; the counts add up to all
      uses; larger counts come first, and of equal counts the tool that was used first. */
  lemma BreakdownIsRight(tools: seq<string>)
    ensures var b := Breakdown(tools);
            && (forall k :: 0 <= k < |b| ==> b[k].name in tools && b[k].count == multiset(tools)[b[k].name])
            && (forall name :: name in tools ==> Lists(b, name))
            && (forall i, j :: 0 <= i < j < |b| ==> b[i].name != b[j].name)
            && Total(b) == |tools|
            && InOrder(b, tools)
  {
    TallyIsRight(tools);
    var t := Tally(tools);
    MostCommonFacts(t, tools);
    var b := Breakdown(tools);
    forall k | 0 <= k < |b|
      ensures b[k].name in tools && b[k].count == multiset(tools)[b[k].name]
    {
      assert b[k] in b;
      var i :| 0 <= i < |t| && t[i] == b[k];
      assert EntryRight(t[i], tools);
      UsesIsMultiplicity(tools, b[k].name);
    }
    forall name | name in tools
      ensures Lists(b, name)
    {
      var k := Find(t, name);
      assert t[k] in t;
      var i :| 0 <= i < |b| && b[i] == t[k];
      assert b[i].name == name;
    }
    forall i, j | 0 <= i < j < |b|
      ensures b[i].name != b[j].name
    {
      assert Before(b[i], b[j], tools);
    }
  }
}
