/** The Gemma 4 turn builder: an assistant message with tool calls, the tool messages that answer it, and the final
    assistant message become one message. What a history says is kept in order, except for what the builder drops. */
module Turns {
  import opened Wrappers
  import opened Text
  import Json

  type Parser = string -> Option<Json.Value>

  datatype Response = Response(name: string, value: Json.Value)

  type Outcome<+T> = Result<T, string>

  /** The fields of a message object the builder reads or writes. */
  datatype Message = Message(role: string, content: Option<Json.Value>, reasoning: Option<Json.Value>,
                             calls: Option<Json.Value>, callId: Option<Json.Value>, responses: seq<Response>)

  predicate HasCalls(m: Message) { m.calls.Some? && m.calls.value.Array? && m.calls.value.items != [] }

  predicate HasContent(m: Message)
  {
    m.content.Some? &&
    ((m.content.value.String? && m.content.value.s != "") || (m.content.value.Array? && m.content.value.items != []))
  }

  function CallsOf(m: Message): (calls: seq<Json.Value>) { if HasCalls(m) then m.calls.value.items else [] }

  function Lookup(v: Json.Value, key: string): (r: Option<Json.Value>)
  {
    if !v.Object? then None else Member(v.members, key)
  }

  function Member(members: seq<Json.Member>, key: string): (r: Option<Json.Value>)
  {
    if members == [] then None
    else if members[0].key == key then Some(members[0].value)
    else Member(members[1..], key)
  }

  /** `value(key, "")` on an object: the text of the key, empty if it is absent, an error if it is no text. */
  function TextAt(v: Option<Json.Value>): (r: Outcome<string>)
  {
    if v.None? then Ok("") else if v.value.String? then Ok(v.value.s) else Err("type must be string")
  }

  /** The function name of a call, empty if it has none. */
  function FunctionName(call: Json.Value): (name: Outcome<string>)
  {
    var f := Lookup(call, "function");
    if f.None? then Ok("")
    else if !f.value.Object? then Err("cannot use value()")
    else TextAt(Lookup(f.value, "name"))
  }

  /** What a tool message answers: its content, parsed if it is a string that parses. */
  function ResultOf(m: Message, parse: Parser): (v: Json.Value)
  {
    if m.content.None? then Json.Null
    else if m.content.value.String? && parse(m.content.value.s).Some? then parse(m.content.value.s).value
    else m.content.value
  }

  /** The `k`-th answer is named after the `k`-th call, or after the call id if that has no name. */
  function NameFor(calls: seq<Json.Value>, k: nat, m: Message): (name: Outcome<string>)
  {
    var name := if k < |calls| then FunctionName(calls[k]) else Ok("");
    if name == Ok("") then TextAt(m.callId) else name
  }

  // ---------- turns ----------

  predicate Calling(m: Message) { m.role == "assistant" && HasCalls(m) }

  /** The number of tool messages `ms` starts with. */
  function ToolRun(ms: seq<Message>): (n: nat)
    ensures n <= |ms|
    ensures forall k :: 0 <= k < n ==> ms[k].role == "tool"
    ensures n < |ms| ==> ms[n].role != "tool"
  {
    if ms == [] || ms[0].role != "tool" then 0 else 1 + ToolRun(ms[1..])
  }

  predicate IsFinal(m: Message) { m.role == "assistant" && !HasCalls(m) && HasContent(m) }

  /** Every answer can be named: otherwise the builder throws. */
  predicate Nameable(calls: seq<Json.Value>, tools: seq<Message>)
  {
    forall k :: 0 <= k < |tools| ==> NameFor(calls, k, tools[k]).Ok?
  }

  function Named(calls: seq<Json.Value>, k: nat, m: Message, parse: Parser): (r: Response)
  {
    var name := NameFor(calls, k, m);
    Response(if name.Ok? then name.value else "", ResultOf(m, parse))
  }

  function Responses(calls: seq<Json.Value>, tools: seq<Message>, parse: Parser): (rs: seq<Response>)
    ensures |rs| == |tools|
    ensures forall k :: 0 <= k < |rs| ==> rs[k] == Named(calls, k, tools[k], parse)
  {
    seq(|tools|, k requires 0 <= k < |tools| => Named(calls, k, tools[k], parse))
  }

  function TextOf(v: Option<Json.Value>): (r: Option<Json.Value>) { if v.Some? && v.value.String? then v else None }

  /** The message a turn becomes. */
  function Merged(first: Message, tools: seq<Message>, last: Option<Message>, parse: Parser): (m: Message)
  {
    Message("assistant", if last.Some? then last.value.content else None, TextOf(first.reasoning),
            Some(Json.Array(CallsOf(first))), None, Responses(CallsOf(first), tools, parse))
  }

  /** A turn taken off the front: its message and its length. */
  function TakeTurn(ms: seq<Message>, parse: Parser): (r: (Message, nat))
    requires ms != []
    ensures 1 <= r.1 <= |ms|
  {
    var n := ToolRun(ms[1..]);
    var tools := ms[1..][..n];
    if n + 1 < |ms| && IsFinal(ms[n + 1]) then (Merged(ms[0], tools, Some(ms[n + 1]), parse), n + 2)
    else (Merged(ms[0], tools, None, parse), n + 1)
  }

  function Converted(ms: seq<Message>, parse: Parser): (r: seq<Message>)
    decreases |ms|
  {
    if ms == [] then []
    else if !Calling(ms[0]) then [ms[0]] + Converted(ms[1..], parse)
    else
      var (m, n) := TakeTurn(ms, parse);
      [m] + Converted(ms[n..], parse)
  }

  /** The turn at the front cannot be built. */
  predicate TurnFails(ms: seq<Message>)
    requires ms != []
  {
    !Nameable(CallsOf(ms[0]), ms[1..][..ToolRun(ms[1..])])
  }

  /** Some turn cannot be built. */
  predicate Fails(ms: seq<Message>, parse: Parser)
    decreases |ms|
  {
    if ms == [] then false
    else if !Calling(ms[0]) then Fails(ms[1..], parse)
    else TurnFails(ms) || Fails(ms[TakeTurn(ms, parse).1..], parse)
  }

  // ---------- the builder ----------

  class TurnBuilder {
    const messages: seq<Message>
    const parse: Parser
    var pos: nat
    var toolCalls: seq<Json.Value>
    var toolResponses: seq<Response>
    var content: Option<Json.Value>
    var reasoning: Option<Json.Value>

    constructor (messages: seq<Message>, pos: nat, parse: Parser)
      ensures this.messages == messages && this.pos == pos && this.parse == parse
      ensures toolCalls == [] && toolResponses == [] && content == None && reasoning == None
    {
      this.messages, this.pos, this.parse := messages, pos, parse;
      toolCalls, toolResponses, content, reasoning := [], [], None, None;
    }

    /** `build`, with the `collect` it starts with: one turn is taken from `pos` on. */
    method Build() returns (r: Outcome<Message>)
      requires pos < |messages| && Calling(messages[pos])
      requires toolCalls == [] && toolResponses == [] && content == None && reasoning == None
      modifies this
      ensures r.Err? <==> TurnFails(messages[old(pos)..])
      ensures r.Ok? ==> (r.value, pos - old(pos)) == TakeTurn(messages[old(pos)..], parse)
    {
      hide ToolRun, NameFor, ResultOf, Responses, HasContent, CallsOf, HasCalls, Nameable;
      ghost var start := pos;
      ghost var ms := messages[start..];
      var msg := messages[pos];
      if msg.reasoning.Some? && msg.reasoning.value.String? {
        reasoning := msg.reasoning;
      }
      CollectCalls(msg);
      pos := pos + 1;
      ghost var n := ToolRun(ms[1..]);
      assert messages[start + 1..] == ms[1..] && messages[start + 1..start + 1 + n] == ms[1..][..n];
      var named := CollectResults();
      if !named { return Err("type error"); }
      assert toolResponses == Responses(CallsOf(ms[0]), ms[1..][..n], parse);
      assert pos < |messages| ==> messages[pos] == ms[n + 1];
      if pos < |messages| && messages[pos].role == "assistant" {
        var next := messages[pos];
        if !HasCalls(next) && HasContent(next) {
          content := next.content;
          pos := pos + 1;
        }
      }
      r := Ok(Message("assistant", content, reasoning, Some(Json.Array(toolCalls)), None, toolResponses));
    }

    method CollectCalls(msg: Message)
      requires HasCalls(msg) && toolCalls == []
      modifies this`toolCalls
      ensures toolCalls == CallsOf(msg)
    {
      var items := msg.calls.value.items;
      for i := 0 to |items|
        invariant toolCalls == items[..i]
      {
        toolCalls := toolCalls + [items[i]];
      }
      assert items[..|items|] == items;
    }

    /** The loop over the tool messages. */
    method CollectResults() returns (named: bool)
      requires pos <= |messages| && toolResponses == []
      modifies this`pos, this`toolResponses
      ensures var tools := messages[old(pos)..][..ToolRun(messages[old(pos)..])];
              (named <==> Nameable(toolCalls, tools)) &&
              (named ==> pos == old(pos) + |tools| <= |messages| && toolResponses == Responses(toolCalls, tools, parse))
    {
      hide NameFor, ResultOf, Responses, Nameable, ToolRun;
      ghost var start := pos;
      ghost var n := ToolRun(messages[start..]);
      NoResponses(toolCalls, parse);
      assert messages[start..start] == [];
      while pos < |messages| && messages[pos].role == "tool"
        invariant start <= pos <= |messages|
        invariant pos - start + ToolRun(messages[pos..]) == n
        invariant Nameable(toolCalls, messages[start..pos])
        invariant toolResponses == Responses(toolCalls, messages[start..pos], parse)
      {
        RunMore(messages, start, pos);
        ResponsesMore(toolCalls, messages[start..pos], messages[pos], parse);
        named := CollectResult(messages[pos]);
        if !named {
          NotNameable(toolCalls, messages[start..][..n], pos - start);
          return;
        }
        pos := pos + 1;
      }
      RunEnds(messages, start, pos);
      named := true;
    }

    method CollectResult(curr: Message) returns (named: bool)
      modifies this`toolResponses
      ensures named == NameFor(toolCalls, |old(toolResponses)|, curr).Ok?
      ensures toolResponses ==
              old(toolResponses) + if named then [Named(toolCalls, |old(toolResponses)|, curr, parse)] else []
    {
      var response := Json.Null;
      if curr.content.Some? {
        var c := curr.content.value;
        if c.String? {
          var parsed := parse(c.s);
          response := if parsed.Some? then parsed.value else c;
        } else {
          response := c;
        }
      }
      var name := Ok("");
      var idx := |toolResponses|;
      if idx < |toolCalls| {
        name := FunctionName(toolCalls[idx]);
        if name.Err? { return false; }
      }
      if name.value == "" {
        name := TextAt(curr.callId);
        if name.Err? { return false; }
      }
      toolResponses := toolResponses + [Response(name.value, response)];
      named := true;
    }
  }

  lemma {:induction false} RunMore(ms: seq<Message>, start: nat, pos: nat)
    requires start <= pos < |ms| && ms[pos].role == "tool"
    ensures ToolRun(ms[pos..]) == 1 + ToolRun(ms[pos + 1..]) && ms[start..pos + 1] == ms[start..pos] + [ms[pos]]
    ensures forall n :: pos - start < n <= |ms| - start ==> ms[start..][..n][pos - start] == ms[pos]
  {
    assert ms[pos..][1..] == ms[pos + 1..];
  }

  lemma {:induction false} RunEnds(ms: seq<Message>, start: nat, pos: nat)
    requires start <= pos <= |ms| && (pos < |ms| ==> ms[pos].role != "tool")
    ensures ToolRun(ms[pos..]) == 0 && ms[start..][..pos - start] == ms[start..pos]
  {
  }

  lemma {:induction false} NotNameable(calls: seq<Json.Value>, tools: seq<Message>, k: nat)
    requires k < |tools| && NameFor(calls, k, tools[k]).Err?
    ensures !Nameable(calls, tools)
  {
    hide NameFor;
  }

  lemma {:induction false} NoResponses(calls: seq<Json.Value>, parse: Parser)
    ensures Responses(calls, [], parse) == [] && Nameable(calls, [])
  {
  }

  lemma {:induction false} ResponsesMore(calls: seq<Json.Value>, tools: seq<Message>, m: Message, parse: Parser)
    ensures Responses(calls, tools + [m], parse) ==
            Responses(calls, tools, parse) + [Named(calls, |tools|, m, parse)]
    ensures Nameable(calls, tools + [m]) <==> Nameable(calls, tools) && NameFor(calls, |tools|, m).Ok?
  {
    hide NameFor, Named;
    assert (tools + [m])[|tools|] == m && forall k :: 0 <= k < |tools| ==> (tools + [m])[k] == tools[k];
  }

  /** `convert_tool_responses_gemma4`: the history is replaced only if every turn can be built. */
  method ConvertToolResponses(messages: seq<Message>, parse: Parser) returns (r: Outcome<seq<Message>>)
    ensures r.Err? <==> Fails(messages, parse)
    ensures r.Ok? ==> r.value == Converted(messages, parse)
  {
    hide TakeTurn, TurnFails;
    var result: seq<Message> := [];
    var i := 0;
    assert messages[0..] == messages;
    while i < |messages|
      invariant i <= |messages| && result + Converted(messages[i..], parse) == Converted(messages, parse)
      invariant Fails(messages[i..], parse) == Fails(messages, parse)
    {
      var msg := messages[i];
      if msg.role != "assistant" || !HasCalls(msg) {
        assert messages[i..][1..] == messages[i + 1..];
        Regroup(result, msg, Converted(messages[i + 1..], parse));
        result := result + [msg];
        i := i + 1;
        continue;
      }
      var builder := new TurnBuilder(messages, i, parse);
      var built := builder.Build();
      if built.Err? { return Err(built.error); }
      var m := built.value;
      assert messages[i..][builder.pos - i..] == messages[builder.pos..];
      Regroup(result, m, Converted(messages[builder.pos..], parse));
      result := result + [m];
      i := builder.pos;
    }
    assert messages[i..] == [] && result + [] == result;
    r := Ok(result);
  }

  // ---------- what a history says ----------

  datatype Item = Reasoning(v: Json.Value) | Call(v: Json.Value) | Result(v: Json.Value) | Content(v: Json.Value)

  function ReasoningItems(m: Message): (items: seq<Item>)
  {
    if TextOf(m.reasoning).Some? then [Reasoning(m.reasoning.value)] else []
  }

  function CallItems(calls: seq<Json.Value>): (items: seq<Item>)
    ensures |items| == |calls|
  {
    seq(|calls|, i requires 0 <= i < |calls| => Call(calls[i]))
  }

  /** Answers stand in tool messages before the conversion and in responses after it. */
  function ResultItems(m: Message, parse: Parser): (items: seq<Item>)
  {
    if m.role == "tool" then [Result(ResultOf(m, parse))] else ResponseItems(m.responses)
  }

  function ResponseItems(rs: seq<Response>): (items: seq<Item>)
    ensures |items| == |rs|
  {
    seq(|rs|, i requires 0 <= i < |rs| => Result(rs[i].value))
  }

  function ContentItems(m: Message): (items: seq<Item>)
  {
    if m.role != "tool" && HasContent(m) then [Content(m.content.value)] else []
  }

  function ItemsOf(m: Message, parse: Parser): (items: seq<Item>)
  {
    ReasoningItems(m) + CallItems(CallsOf(m)) + ResultItems(m, parse) + ContentItems(m)
  }

  function Trace(ms: seq<Message>, parse: Parser): (items: seq<Item>)
  {
    if ms == [] then [] else ItemsOf(ms[0], parse) + Trace(ms[1..], parse)
  }

  // ---------- what is dropped ----------

  /** The items of a turn that have no place in its message: the content and earlier responses of the calling message,
      all but the answer of a tool message, and all but the content of the final one. */
  function DroppedFirst(m: Message): (n: nat) { |ResponseItems(m.responses)| + |ContentItems(m)| }

  function DroppedTools(tools: seq<Message>): (n: nat)
  {
    if tools == [] then 0
    else |ReasoningItems(tools[0])| + |CallItems(CallsOf(tools[0]))| + DroppedTools(tools[1..])
  }

  function DroppedLast(m: Message): (n: nat) { |ReasoningItems(m)| + |ResponseItems(m.responses)| }

  function Dropped(ms: seq<Message>): (n: nat)
    decreases |ms|
  {
    if ms == [] then 0
    else if !Calling(ms[0]) then Dropped(ms[1..])
    else
      var n := ToolRun(ms[1..]);
      var here := DroppedFirst(ms[0]) + DroppedTools(ms[1..][..n]);
      if n + 1 < |ms| && IsFinal(ms[n + 1]) then here + DroppedLast(ms[n + 1]) + Dropped(ms[n + 2..])
      else here + Dropped(ms[n + 1..])
  }

  lemma {:induction false} TraceAppend(a: seq<Message>, b: seq<Message>, parse: Parser)
    ensures Trace(a + b, parse) == Trace(a, parse) + Trace(b, parse)
  {
    hide ItemsOf;
    if a == [] {
      assert a + b == b;
    } else {
      assert (a + b)[1..] == a[1..] + b;
      TraceAppend(a[1..], b, parse);
      Associate(ItemsOf(a[0], parse), Trace(a[1..], parse), Trace(b, parse));
    }
  }

  lemma {:induction false} TraceOne(m: Message, parse: Parser)
    ensures Trace([m], parse) == ItemsOf(m, parse)
  {
    hide ItemsOf;
    assert [m][1..] == [] && ItemsOf(m, parse) + [] == ItemsOf(m, parse);
  }

  /** The answers of a run of tool messages, as items. */
  lemma {:induction false} ToolsTrace(calls: seq<Json.Value>, tools: seq<Message>, parse: Parser)
    requires forall k :: 0 <= k < |tools| ==> tools[k].role == "tool"
    ensures var answers := ResponseItems(Responses(calls, tools, parse));
            |Trace(tools, parse)| == |answers| + DroppedTools(tools) &&
            (DroppedTools(tools) == 0 ==> Trace(tools, parse) == answers)
    decreases |tools|
  {
    hide ItemsOf, ResultOf, Responses, ResponseItems, ReasoningItems, CallItems, CallsOf;
    if tools == [] {
      NoAnswers(calls, parse);
    } else {
      ToolsTrace(calls, tools[1..], parse);
      ToolItems(tools[0], parse);
      AnswersCons(calls, tools, parse);
    }
  }

  lemma {:induction false} NoAnswers(calls: seq<Json.Value>, parse: Parser)
    ensures ResponseItems(Responses(calls, [], parse)) == []
  {
  }

  lemma {:induction false} AnswersCons(calls: seq<Json.Value>, tools: seq<Message>, parse: Parser)
    requires tools != []
    ensures ResponseItems(Responses(calls, tools, parse)) ==
            [Result(ResultOf(tools[0], parse))] + ResponseItems(Responses(calls, tools[1..], parse))
  {
    hide NameFor, ResultOf;
  }

  lemma {:induction false} ToolItems(m: Message, parse: Parser)
    requires m.role == "tool"
    ensures var n := |ReasoningItems(m)| + |CallItems(CallsOf(m))|;
            |ItemsOf(m, parse)| == n + 1 && (n == 0 ==> ItemsOf(m, parse) == [Result(ResultOf(m, parse))])
  {
    hide ResultOf;
    assert |ReasoningItems(m)| == 0 ==> ReasoningItems(m) == [];
    assert |CallItems(CallsOf(m))| == 0 ==> CallItems(CallsOf(m)) == [];
  }

  /** The items of the message a turn becomes. */
  lemma {:induction false} MergedItems(first: Message, tools: seq<Message>, last: Option<Message>, parse: Parser)
    requires HasCalls(first) && (last.Some? ==> IsFinal(last.value))
    ensures ItemsOf(Merged(first, tools, last, parse), parse) ==
            ReasoningItems(first) + CallItems(CallsOf(first)) + ResponseItems(Responses(CallsOf(first), tools, parse)) +
            if last.Some? then ContentItems(last.value) else []
  {
    hide Responses;
    var m := Merged(first, tools, last, parse);
    assert CallsOf(m) == CallsOf(first);
    assert ReasoningItems(m) == ReasoningItems(first);
  }

  lemma {:induction false} FirstItems(m: Message, parse: Parser)
    requires Calling(m)
    ensures |ItemsOf(m, parse)| == |ReasoningItems(m) + CallItems(CallsOf(m))| + DroppedFirst(m)
    ensures DroppedFirst(m) == 0 ==> ItemsOf(m, parse) == ReasoningItems(m) + CallItems(CallsOf(m))
  {
    hide HasContent;
    if DroppedFirst(m) == 0 { assert ResponseItems(m.responses) == [] && ContentItems(m) == []; }
  }

  lemma {:induction false} LastItems(m: Message, parse: Parser)
    requires IsFinal(m)
    ensures |ItemsOf(m, parse)| == |ContentItems(m)| + DroppedLast(m)
    ensures DroppedLast(m) == 0 ==> ItemsOf(m, parse) == ContentItems(m)
  {
    hide HasContent;
    assert CallItems(CallsOf(m)) == [];
    if DroppedLast(m) == 0 { assert ResponseItems(m.responses) == [] && ReasoningItems(m) == []; }
  }

  /** One turn: its message says as many items as the turn, less the dropped ones, and the same if none are dropped. */
  lemma {:induction false} TurnTrace(first: Message, tools: seq<Message>, last: Option<Message>, parse: Parser)
    requires Calling(first) && (last.Some? ==> IsFinal(last.value))
    requires forall k :: 0 <= k < |tools| ==> tools[k].role == "tool"
    ensures var turn := [first] + tools + if last.Some? then [last.value] else [];
            var dropped :=
              DroppedFirst(first) + DroppedTools(tools) + if last.Some? then DroppedLast(last.value) else 0;
            var items := ItemsOf(Merged(first, tools, last, parse), parse);
            |Trace(turn, parse)| == |items| + dropped && (dropped == 0 ==> Trace(turn, parse) == items)
  {
    hide Trace, ItemsOf, Merged, ResponseItems, Responses, ReasoningItems, CallItems, ContentItems, DroppedFirst,
      DroppedTools, DroppedLast;
    var tail := if last.Some? then [last.value] else [];
    TraceAppend([first] + tools, tail, parse);
    TraceAppend([first], tools, parse);
    TraceOne(first, parse);
    FirstItems(first, parse);
    ToolsTrace(CallsOf(first), tools, parse);
    MergedItems(first, tools, last, parse);
    if last.Some? {
      TraceOne(last.value, parse);
      LastItems(last.value, parse);
    } else {
      NothingSaid(parse);
    }
  }

  lemma {:induction false} NothingSaid(parse: Parser)
    ensures Trace([], parse) == []
  {
  }

  lemma {:induction false} TakenTurn(ms: seq<Message>, parse: Parser) returns (tools: seq<Message>,
          last: Option<Message>)
    requires ms != [] && Calling(ms[0])
    ensures var (m, n) := TakeTurn(ms, parse);
            m == Merged(ms[0], tools, last, parse) && (last.Some? ==> IsFinal(last.value)) &&
            (forall k :: 0 <= k < |tools| ==> tools[k].role == "tool") &&
            ms[..n] == [ms[0]] + tools + (if last.Some? then [last.value] else []) &&
            Dropped(ms) ==
            DroppedFirst(ms[0]) + DroppedTools(tools) + (if last.Some? then DroppedLast(last.value) else 0) +
              Dropped(ms[n..])
  {
    hide Merged, DroppedFirst, DroppedTools, DroppedLast, IsFinal;
    var k := ToolRun(ms[1..]);
    tools := ms[1..][..k];
    last := if k + 1 < |ms| && IsFinal(ms[k + 1]) then Some(ms[k + 1]) else None;
    assert ms[..k + 1] == [ms[0]] + tools;
  }

  /** The conversion keeps what a history says, in order, if and only if it drops nothing: every item that is lost is
      counted. `Converted` is what the program makes of a history in which every turn can be built; where one throws
      (`Fails`), it leaves the history alone. */
  lemma {:induction false} ConversionKeeps(ms: seq<Message>, parse: Parser)
    ensures |Trace(ms, parse)| == |Trace(Converted(ms, parse), parse)| + Dropped(ms)
    ensures Trace(Converted(ms, parse), parse) == Trace(ms, parse) <==> Dropped(ms) == 0
    decreases |ms|
  {
    hide ItemsOf, TakeTurn, Merged, DroppedFirst, DroppedTools, DroppedLast, IsFinal;
    if ms != [] {
      if !Calling(ms[0]) {
        ConversionKeeps(ms[1..], parse);
        TraceAppend([ms[0]], Converted(ms[1..], parse), parse);
        TraceOne(ms[0], parse);
      } else {
        var (m, n) := TakeTurn(ms, parse);
        var tools, last := TakenTurn(ms, parse);
        ConversionKeeps(ms[n..], parse);
        TurnTrace(ms[0], tools, last, parse);
        assert ms == ms[..n] + ms[n..];
        TraceAppend(ms[..n], ms[n..], parse);
        TraceAppend([m], Converted(ms[n..], parse), parse);
        TraceOne(m, parse);
      }
    }
  }

  /** Content beside tool calls is dropped, whatever else the history holds. */
  lemma {:induction false} ContentLost(before: Message, ms: seq<Message>, parse: Parser)
    requires Calling(before) && HasContent(before)
    ensures Trace(Converted([before] + ms, parse), parse) != Trace([before] + ms, parse)
  {
    hide Trace, Converted, TakeTurn;
    var all := [before] + ms;
    var tools, last := TakenTurn(all, parse);
    assert DroppedFirst(before) > 0;
    ConversionKeeps(all, parse);
  }

  // ---------- what the answers are called ----------

  /** The value a key has in an object, the first if it is there twice, or none. */
  ghost predicate Field(v: Json.Value, key: string, x: Option<Json.Value>)
  {
    match x
    case None => v.Object? ==> forall i :: 0 <= i < |v.members| ==> v.members[i].key != key
    case Some(y) =>
      v.Object? &&
      exists i :: 0 <= i < |v.members| && v.members[i] == Json.Member(key, y) &&
        forall j :: 0 <= j < i ==> v.members[j].key != key
  }

  lemma {:induction false} FieldIs(v: Json.Value, key: string, x: Option<Json.Value>)
    ensures Field(v, key, x) <==> Lookup(v, key) == x
  {
    if v.Object? { MemberIs(v.members, key, x); }
  }

  lemma {:induction false} MemberIs(members: seq<Json.Member>, key: string, x: Option<Json.Value>)
    ensures Field(Json.Object(members), key, x) <==> Member(members, key) == x
    decreases |members|
  {
    if members != [] {
      MemberIs(members[1..], key, x);
      if members[0].key == key {
        assert Field(Json.Object(members), key, Some(members[0].value)) by
          { assert members[0] == Json.Member(key, members[0].value); }
      } else {
        FieldBehind(members, key, x);
      }
    }
  }

  lemma {:induction false} FieldBehind(members: seq<Json.Member>, key: string, x: Option<Json.Value>)
    requires members != [] && members[0].key != key
    ensures Field(Json.Object(members), key, x) <==> Field(Json.Object(members[1..]), key, x)
  {
    var rest := members[1..];
    assert forall i :: 0 <= i < |rest| ==> rest[i] == members[i + 1];
    if x.Some? {
      var m := Json.Member(key, x.value);
      if Field(Json.Object(rest), key, x) {
        var i :| 0 <= i < |rest| && rest[i] == m && forall j :: 0 <= j < i ==> rest[j].key != key;
        assert members[i + 1] == m;
      }
      if Field(Json.Object(members), key, x) {
        var i :| 0 <= i < |members| && members[i] == m && forall j :: 0 <= j < i ==> members[j].key != key;
        assert rest[i - 1] == m;
      }
    }
  }

  /** The call's function is called `f`; empty if the call has no function or the function no name. */
  ghost predicate Calls(call: Json.Value, f: string)
  {
    if Field(call, "function", None) then f == ""
    else
      exists fn ::
        Field(call, "function", Some(fn)) && fn.Object? &&
        (Field(fn, "name", Some(Json.String(f))) || (Field(fn, "name", None) && f == ""))
  }

  /** `name` is what the answer `m` in place `k` has to be called: the name of the call in this place,
    or without one the
      answer's own call id. */
  ghost predicate Names(calls: seq<Json.Value>, k: nat, m: Message, name: string)
  {
    if k < |calls| && !Calls(calls[k], "") then Calls(calls[k], name)
    else m.callId == Some(Json.String(name)) || (m.callId == None && name == "")
  }

  lemma {:induction false} CallsIs(call: Json.Value, f: string)
    ensures Calls(call, f) <==> FunctionName(call) == Ok(f)
  {
    hide Field, Lookup;
    FieldIs(call, "function", None);
    var fn := Lookup(call, "function");
    if fn.Some? {
      FieldIs(call, "function", fn);
      FieldIs(fn.value, "name", Some(Json.String(f)));
      FieldIs(fn.value, "name", None);
      forall g | Field(call, "function", Some(g))
        ensures g == fn.value
      {
        FieldIs(call, "function", Some(g));
      }
    }
  }

  lemma {:induction false} NamesIs(calls: seq<Json.Value>, k: nat, m: Message, name: string)
    ensures Names(calls, k, m, name) <==> NameFor(calls, k, m) == Ok(name)
  {
    hide Calls, FunctionName;
    if k < |calls| {
      CallsIs(calls[k], "");
      CallsIs(calls[k], name);
    }
  }

  /** The value of an answer: the content, parsed if it is a text that parses; null without one. */
  predicate Answers(m: Message, parse: Parser, v: Json.Value)
  {
    match m.content
    case None => v == Json.Null
    case Some(c) => if c.String? && parse(c.s).Some? then Some(v) == parse(c.s) else v == c
  }

  /** Every answer of a turn gets the name of the call in its place, or its own call id, and its own content; where one
      of them has none of these, the builder throws. */
  lemma {:induction false} AnswersNamed(first: Message, tools: seq<Message>, rest: seq<Message>, parse: Parser)
    requires Calling(first) && (forall k :: 0 <= k < |tools| ==> tools[k].role == "tool")
    requires rest == [] || rest[0].role != "tool"
    ensures var all, calls := [first] + tools + rest, first.calls.value.items;
            if TurnFails(all) then exists k :: 0 <= k < |tools| && forall name :: !Names(calls, k, tools[k], name)
            else
              Converted(all, parse) != [] &&
              var turn := Converted(all, parse)[0];
              var responses := turn.responses;
              turn.role == "assistant" && turn.calls == first.calls && |responses| == |tools| &&
              forall k :: 0 <= k < |tools| ==>
                Names(calls, k, tools[k], responses[k].name) && Answers(tools[k], parse, responses[k].value)
  {
    hide Names, NameFor, FunctionName, TextAt, ResultOf, Answers, Responses, ToolRun, IsFinal, Converted, Named;
    var all, calls := [first] + tools + rest, first.calls.value.items;
    assert all[1..] == tools + rest;
    RunIs(tools, rest);
    assert (tools + rest)[..|tools|] == tools;
    if TurnFails(all) {
      var k :| 0 <= k < |tools| && NameFor(calls, k, tools[k]).Err?;
      forall name
        ensures !Names(calls, k, tools[k], name)
      {
        NamesIs(calls, k, tools[k], name);
      }
    } else {
      FirstTurn(all, parse);
      forall k | 0 <= k < |tools|
        ensures var r := Responses(calls, tools, parse)[k];
                Names(calls, k, tools[k], r.name) && Answers(tools[k], parse, r.value)
      {
        NamedIs(calls, k, tools[k], parse);
      }
    }
  }

  lemma {:induction false} FirstTurn(ms: seq<Message>, parse: Parser)
    requires ms != [] && Calling(ms[0])
    ensures Converted(ms, parse) != []
    ensures Converted(ms, parse)[0].role == "assistant" && Converted(ms, parse)[0].calls == ms[0].calls
    ensures Converted(ms, parse)[0].responses == Responses(CallsOf(ms[0]), ms[1..][..ToolRun(ms[1..])], parse)
  {
    hide Responses, ToolRun, IsFinal;
  }

  lemma {:induction false} NamedIs(calls: seq<Json.Value>, k: nat, m: Message, parse: Parser)
    requires NameFor(calls, k, m).Ok?
    ensures var r := Named(calls, k, m, parse); Names(calls, k, m, r.name) && Answers(m, parse, r.value)
  {
    hide NameFor, Names;
    NamesIs(calls, k, m, NameFor(calls, k, m).value);
  }

  lemma {:induction false} RunIs(tools: seq<Message>, rest: seq<Message>)
    requires (forall k :: 0 <= k < |tools| ==> tools[k].role == "tool") && (rest == [] || rest[0].role != "tool")
    ensures ToolRun(tools + rest) == |tools|
  {
    if tools == [] {
      assert tools + rest == rest;
    } else {
      assert (tools + rest)[1..] == tools[1..] + rest;
      RunIs(tools[1..], rest);
    }
  }
}
