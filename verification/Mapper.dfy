/** `common_chat_peg_mapper`: tagged parse events turned into a chat message, one event at a time. The class has
    the fields of the C++ mapper and updates them in place; `Step` is its specification on values. */
module Mapper {
  import opened Wrappers
  import opened Text
  import opened Chat
  import Json
  import Quotes

  /** The tags of the nodes the mapper looks at, in the order the parse tree is visited. `Other` stands for every
      tag it ignores. */
  datatype Tag =
    | Reasoning | Content | ToolOpen | ToolId | ToolName | ToolArgs | ToolClose
    | ArgOpen | ArgName | ArgValue | ArgStringValue | ArgClose | Other

  datatype Event = Event(tag: Tag, text: string)

  /** Where `current_tool` points: nowhere, at the call waiting for its name, at the last call of the result, or
      at a call that has been discarded. */
  datatype Target = NoTool | Pending | Last | Dangling

  datatype State = State(msg: Message, pending: Option<ToolCall>, current: Target, argCount: nat,
                         quote: bool, buffer: string)

  const START := State(EMPTY, None, NoTool, 0, false, "")

  predicate Valid(s: State)
  {
    (s.current.Pending? <==> s.pending.Some?) && (s.current.Last? ==> s.msg.calls != [])
  }

  predicate HasTool(s: State) { s.current.Pending? || s.current.Last? }

  /** `*current_tool`. */
  function Tool(s: State): (call: ToolCall)
    requires Valid(s) && HasTool(s)
  {
    if s.current.Pending? then s.pending.value else s.msg.calls[|s.msg.calls| - 1]
  }

  function WithTool(s: State, call: ToolCall): (r: State)
    requires Valid(s) && HasTool(s)
    ensures Valid(r) && HasTool(r) && Tool(r) == call
  {
    if s.current.Pending? then s.(pending := Some(call))
    else s.(msg := s.msg.(calls := s.msg.calls[|s.msg.calls| - 1 := call]))
  }

  /** The string `args_target()` refers to. */
  function Args(s: State): (text: string)
    requires Valid(s) && HasTool(s)
  {
    if Tool(s).name != "" then Tool(s).arguments else s.buffer
  }

  function WithArgs(s: State, text: string): (r: State)
    requires Valid(s) && HasTool(s)
    ensures Valid(r) && HasTool(r) && Args(r) == text
  {
    if Tool(s).name != "" then WithTool(s, Tool(s).(arguments := text)) else s.(buffer := text)
  }

  function AddArgs(s: State, text: string): (r: State)
    requires Valid(s) && HasTool(s)
    ensures Valid(r) && HasTool(r)
  {
    WithArgs(s, Args(s) + text)
  }

  // ---------- what each event does ----------

  /** The id a `ToolId` event carries: trailing spaces and one pair of quotes go. */
  function IdText(text: string): (id: string)
  {
    var t := TrimTrailing(text);
    if |t| >= 2 && t[0] == '"' && t[|t| - 1] == '"' then t[1..|t| - 1] else t
  }

  function NameTool(s: State, name: string): (r: State)
    requires Valid(s) && HasTool(s)
    ensures Valid(r)
  {
    var call := Tool(s);
    var args := if s.buffer != "" then s.buffer else if call.arguments == "" then "{" else call.arguments;
    var named := ToolCall(name, args, call.id);
    if s.pending.Some? then
      s.(buffer := "", pending := None, current := Last, msg := s.msg.(calls := s.msg.calls + [named]))
    else WithTool(s.(buffer := ""), named)
  }

  /** Whether a `ToolArgs` text is a whole JSON object rather than the span of tagged arguments. */
  predicate IsObjectText(text: string) { TrimTrailing(text) != "" && TrimTrailing(text)[0] == '{' }

  function ArgEntry(s: State, name: string): (entry: string)
  {
    (if s.argCount > 0 then "," else "") + Json.Quote(Trim(name)) + ":"
  }

  function NameArg(s: State, name: string): (r: State)
    requires Valid(s) && HasTool(s)
    ensures Valid(r)
  {
    var s' := if Args(s) == "" then WithArgs(s, "{") else s;
    AddArgs(s'.(argCount := s.argCount + 1), ArgEntry(s, name))
  }

  /** What a piece of a string value adds: its escaped text, after the opening quote if that is still due. */
  function StringChunk(text: string, quote: bool): (r: string)
  {
    (if text == "" || !quote then "\"" else "") + Json.Escape(text)
  }

  function AddString(s: State, text: string): (r: State)
    requires Valid(s) && HasTool(s)
    ensures Valid(r)
  {
    AddArgs(s.(quote := true), StringChunk(text, s.quote))
  }

  function CloseQuote(s: State): (r: State)
    requires Valid(s) && HasTool(s)
    ensures Valid(r)
  {
    if s.quote then AddArgs(s, "\"").(quote := false) else s
  }

  function Braces(n: int): (r: string)
    ensures |r| == if n <= 0 then 0 else n
  {
    if n <= 0 then "" else "}" + Braces(n - 1)
  }

  function FlushBuffer(s: State): (r: State)
    requires Valid(s) && HasTool(s)
    ensures Valid(r) && HasTool(r)
  {
    if Tool(s).name == "" && s.buffer != "" then WithTool(s, Tool(s).(arguments := s.buffer)).(buffer := "") else s
  }

  /** Unlike an `ArgClose` event, closing the call writes the quote to the call even if it has no name. */
  function EndQuote(s: State): (r: State)
    requires Valid(s) && HasTool(s)
    ensures Valid(r) && HasTool(r)
  {
    if s.quote then WithTool(s, Tool(s).(arguments := Tool(s).arguments + "\"")).(quote := false) else s
  }

  function EndBraces(s: State): (r: State)
    requires Valid(s) && HasTool(s)
    ensures Valid(r) && HasTool(r)
  {
    var open := Tool(s).arguments;
    WithTool(s, Tool(s).(arguments := open + Braces(Quotes.BraceDepth(open))))
  }

  /** A call still pending is added if it has a name, and given up otherwise. */
  function Settle(s: State): (r: State)
    requires Valid(s)
    ensures Valid(r)
  {
    if s.pending.None? then s
    else
      s.(pending := None, current := Dangling,
         msg := if s.pending.value.name == "" then s.msg else s.msg.(calls := s.msg.calls + [s.pending.value]))
  }

  function CloseTool(s: State): (r: State)
    requires Valid(s) && HasTool(s)
    ensures Valid(r)
  {
    Settle(EndBraces(EndQuote(FlushBuffer(s))))
  }

  /** `map`. An event that looks at `current_tool` is ignored when there is none. */
  function Step(s: State, e: Event): (r: State)
    requires Valid(s)
    ensures Valid(r)
  {
    match e.tag
    case Reasoning => s.(msg := s.msg.(reasoning := s.msg.reasoning + e.text))
    case Content => s.(msg := s.msg.(content := s.msg.content + e.text))
    case ToolOpen => State(s.msg, Some(NO_CALL), Pending, 0, false, "")
    case ToolId => if HasTool(s) then WithTool(s, Tool(s).(id := IdText(e.text))) else s
    case ToolName => if HasTool(s) then NameTool(s, TrimTrailing(e.text)) else s
    case ToolArgs => if HasTool(s) && IsObjectText(e.text) then WithArgs(s, TrimTrailing(e.text)) else s
    case ToolClose => if HasTool(s) then CloseTool(s) else s
    case ArgOpen => s.(quote := false)
    case ArgName => if HasTool(s) then NameArg(s, e.text) else s
    case ArgValue => if HasTool(s) then AddArgs(s, Quotes.NormalizeAll(e.text)) else s
    case ArgStringValue => if HasTool(s) then AddString(s, e.text) else s
    case ArgClose => if HasTool(s) then CloseQuote(s) else s
    case Other => s
  }

  function Run(s: State, events: seq<Event>): (r: State)
    requires Valid(s)
    ensures Valid(r)
    decreases |events|
  {
    if events == [] then s else Run(Step(s, events[0]), events[1..])
  }

  predicate IsBlank(s: string)
  {
    forall i :: 0 <= i < |s| ==> s[i] == ' ' || s[i] == '\n' || s[i] == '\r' || s[i] == '\t'
  }

  /** The message when the events are over: a named pending call is added, reasoning of spaces only is dropped. */
  function Finish(s: State): (msg: Message)
    requires Valid(s)
  {
    var msg :=
      if s.pending.None? || s.pending.value.name == "" then s.msg
      else
        var args := if s.buffer != "" then s.buffer else s.pending.value.arguments;
        var quote := if s.quote && args != "" then "\"" else "";
        s.msg.(calls := s.msg.calls + [s.pending.value.(arguments := args + quote)]);
    if IsBlank(msg.reasoning) then msg.(reasoning := "") else msg
  }

  lemma {:induction false} ChunkText(text: string, quote: bool)
    ensures StringChunk(text, quote) ==
            if text == "" then "\"" else if quote then Json.Escape(text) else "\"" + Json.Escape(text)
  {
    if text == "" { assert "\"" + Json.Escape(text) == "\""; }
    assert "" + Json.Escape(text) == Json.Escape(text);
  }

  lemma {:induction false} EmptyNormalized()
    ensures Quotes.NormalizeAll("") == ""
  {
  }

  // ---------- the mapper itself ----------

  /** Events that follow a discarded call and would use it. The C++ mapper then reads a destroyed object. */
  predicate Undefined(current: Target, e: Event)
  {
    current.Dangling? && !(e.tag in {Reasoning, Content, ToolOpen, ArgOpen, Other})
  }

  class PegMapper {
    var result: Message
    var pendingToolCall: Option<ToolCall>
    var currentTool: Target
    var argCount: nat
    var closingQuotePending: bool
    var argsBuffer: string

    ghost function View(): (s: State)
      reads this
    {
      State(result, pendingToolCall, currentTool, argCount, closingQuotePending, argsBuffer)
    }

    constructor ()
      ensures View() == START && Valid(View())
    {
      result := EMPTY;
      pendingToolCall := None;
      currentTool := NoTool;
      argCount := 0;
      closingQuotePending := false;
      argsBuffer := "";
    }

    function Current(): (call: ToolCall)
      requires Valid(View()) && HasTool(View())
      reads this
      ensures call == Tool(View())
    {
      if currentTool.Pending? then pendingToolCall.value else result.calls[|result.calls| - 1]
    }

    /** A write through `current_tool`. */
    method SetCurrent(call: ToolCall)
      requires Valid(View()) && HasTool(View())
      modifies this`result, this`pendingToolCall
      ensures View() == WithTool(old(View()), call)
    {
      if currentTool.Pending? {
        pendingToolCall := Some(call);
      } else {
        result := result.(calls := result.calls[|result.calls| - 1 := call]);
      }
    }

    /** A write through `args_target()`. */
    method SetArgs(text: string)
      requires Valid(View()) && HasTool(View())
      modifies this`result, this`pendingToolCall, this`argsBuffer
      ensures View() == WithArgs(old(View()), text)
    {
      if Current().name != "" {
        SetCurrent(Current().(arguments := text));
      } else {
        argsBuffer := text;
      }
    }

    function ArgsTarget(): (text: string)
      requires Valid(View()) && HasTool(View())
      reads this
      ensures text == Args(View())
    {
      if Current().name != "" then Current().arguments else argsBuffer
    }

    method Map(node: Event)
      requires Valid(View()) && !Undefined(currentTool, node)
      modifies this
      ensures Valid(View()) && View() == Step(old(View()), node)
    {
      if node.tag.Reasoning? {
        result := result.(reasoning := result.reasoning + node.text);
      }
      if node.tag.Content? {
        result := result.(content := result.content + node.text);
      }
      if node.tag.ToolOpen? {
        pendingToolCall := Some(NO_CALL);
        currentTool := Pending;
        argCount := 0;
        argsBuffer := "";
        closingQuotePending := false;
      }
      if node.tag.ArgOpen? {
        closingQuotePending := false;
      }
      if !currentTool.NoTool? {
        if node.tag.ToolId? { MapId(node.text); }
        if node.tag.ToolName? { MapName(node.text); }
        if node.tag.ToolArgs? {
          var text := TrimTrailingSpace(node.text, None);
          if text != "" && text[0] == '{' { SetArgs(text); }
        }
        if node.tag.ArgName? { MapArgName(node.text); }
        if node.tag.ArgValue? || node.tag.ArgStringValue? { MapArgValue(node.text, node.tag.ArgStringValue?); }
        if node.tag.ArgClose? {
          if closingQuotePending {
            SetArgs(ArgsTarget() + "\"");
            closingQuotePending := false;
          }
        }
        if node.tag.ToolClose? { MapClose(); }
      }
    }

    method MapId(nodeText: string)
      requires Valid(View()) && HasTool(View())
      modifies this
      ensures View() == WithTool(old(View()), Tool(old(View())).(id := IdText(nodeText)))
    {
      var text := TrimTrailingSpace(nodeText, None);
      if |text| >= 2 && text[0] == '"' && text[|text| - 1] == '"' {
        text := text[1..|text| - 1];
      }
      SetCurrent(Current().(id := text));
    }

    method MapName(nodeText: string)
      requires Valid(View()) && HasTool(View())
      modifies this
      ensures View() == NameTool(old(View()), TrimTrailing(nodeText))
    {
      var name := TrimTrailingSpace(nodeText, None);
      SetCurrent(Current().(name := name));
      if argsBuffer != "" {
        SetCurrent(Current().(arguments := argsBuffer));
        argsBuffer := "";
      } else if Current().arguments == "" {
        SetCurrent(Current().(arguments := "{"));
      }
      if pendingToolCall.Some? {
        result := result.(calls := result.calls + [pendingToolCall.value]);
        pendingToolCall := None;
        currentTool := Last;
      }
    }

    method AppendArgs(text: string)
      requires Valid(View()) && HasTool(View())
      modifies this`result, this`pendingToolCall, this`argsBuffer
      ensures View() == AddArgs(old(View()), text)
    {
      SetArgs(ArgsTarget() + text);
    }

    method MapArgName(nodeText: string)
      requires Valid(View()) && HasTool(View())
      modifies this
      ensures View() == NameArg(old(View()), nodeText)
    {
      hide AddArgs, WithArgs, Args;
      var argEntry := "";
      if argCount > 0 {
        argEntry := ",";
      }
      var name := TrimText(nodeText);
      argEntry := argEntry + Json.Quote(name) + ":";
      assert argEntry == ArgEntry(View(), nodeText) by { hide Json.Quote; }
      hide ArgEntry, Json.Quote;
      if ArgsTarget() == "" {
        SetArgs("{");
      }
      argCount := argCount + 1;
      AppendArgs(argEntry);
    }

    method MapArgValue(nodeText: string, isString: bool)
      requires Valid(View()) && HasTool(View())
      modifies this
      ensures View() ==
        if isString then AddString(old(View()), nodeText)
        else AddArgs(old(View()), Quotes.NormalizeAll(nodeText))
    {
      hide AddArgs, StringChunk, Quotes.NormalizeAll;
      ghost var pending := closingQuotePending;
      var valueToAdd := "";
      if nodeText == "" && isString {
        valueToAdd := "\"";
        closingQuotePending := true;
      } else if nodeText != "" && isString {
        if !closingQuotePending {
          valueToAdd := "\"";
          closingQuotePending := true;
        }
        valueToAdd := valueToAdd + Json.Escape(nodeText);
      } else if nodeText != "" {
        valueToAdd := Quotes.NormalizeQuotesToJson(nodeText);
      }
      assert isString ==> valueToAdd == StringChunk(nodeText, pending) by {
        ChunkText(nodeText, pending);
      }
      assert !isString ==> valueToAdd == Quotes.NormalizeAll(nodeText) by {
        EmptyNormalized();
      }
      AppendArgs(valueToAdd);
    }

    method MapClose()
      requires Valid(View()) && HasTool(View())
      modifies this
      ensures View() == CloseTool(old(View()))
    {
      hide FlushBuffer, EndQuote, EndBraces, Settle;
      MapFlush();
      MapEndQuote();
      MapEndBraces();
      MapSettle();
    }

    method MapFlush()
      requires Valid(View()) && HasTool(View())
      modifies this
      ensures View() == FlushBuffer(old(View()))
    {
      if Current().name == "" && argsBuffer != "" {
        SetCurrent(Current().(arguments := argsBuffer));
        argsBuffer := "";
      }
    }

    method MapEndQuote()
      requires Valid(View()) && HasTool(View())
      modifies this
      ensures View() == EndQuote(old(View()))
    {
      if closingQuotePending {
        SetCurrent(Current().(arguments := Current().arguments + "\""));
        closingQuotePending := false;
      }
    }

    method MapEndBraces()
      requires Valid(View()) && HasTool(View())
      modifies this
      ensures View() == EndBraces(old(View()))
    {
      hide Quotes.BraceDepth;
      var d := Quotes.JsonBraceDepth(Current().arguments);
      ghost var before, open := View(), Current().arguments;
      while d > 0
        invariant Valid(View()) && HasTool(View())
        invariant View() == WithTool(before, Tool(before).(arguments := Current().arguments))
        invariant Current().arguments + Braces(d) == open + Braces(Quotes.BraceDepth(open))
      {
        Associate(Current().arguments, "}", Braces(d - 1));
        SetCurrent(Current().(arguments := Current().arguments + "}"));
        d := d - 1;
      }
      assert Current().arguments + "" == Current().arguments;
    }

    method MapSettle()
      requires Valid(View())
      modifies this
      ensures View() == Settle(old(View()))
    {
      if pendingToolCall.Some? {
        if pendingToolCall.value.name != "" {
          result := result.(calls := result.calls + [pendingToolCall.value]);
        }
        pendingToolCall := None;
        currentTool := Dangling;
      }
    }

    /** `from_ast` on the visited nodes. */
    method FromAst(nodes: seq<Event>)
      requires Valid(View()) && Defined(View(), nodes)
      modifies this
      ensures result == Finish(Run(old(View()), nodes))
    {
      for i := 0 to |nodes|
        invariant Valid(View()) && Defined(View(), nodes[i..])
        invariant Run(View(), nodes[i..]) == Run(old(View()), nodes)
      {
        Map(nodes[i]);
        assert nodes[i..][1..] == nodes[i + 1..];
      }
      Flush();
    }

    /** What `from_ast` does after the visit. */
    method Flush()
      requires Valid(View())
      modifies this
      ensures result == Finish(old(View()))
    {
      if pendingToolCall.Some? && pendingToolCall.value.name != "" {
        if argsBuffer != "" {
          pendingToolCall := Some(pendingToolCall.value.(arguments := argsBuffer));
        }
        if closingQuotePending && pendingToolCall.value.arguments != "" {
          pendingToolCall := Some(pendingToolCall.value.(arguments := pendingToolCall.value.arguments + "\""));
        } else {
          assert pendingToolCall.value.arguments + "" == pendingToolCall.value.arguments;
        }
        result := result.(calls := result.calls + [pendingToolCall.value]);
        pendingToolCall := None;
        currentTool := Dangling;
      }
      if result.reasoning != "" {
        var allWhitespace := true;
        for i := 0 to |result.reasoning|
          invariant allWhitespace && IsBlank(result.reasoning[..i])
        {
          var c := result.reasoning[i];
          if c != ' ' && c != '\n' && c != '\r' && c != '\t' {
            allWhitespace := false;
            break;
          }
        }
        assert result.reasoning[..|result.reasoning|] == result.reasoning;
        if allWhitespace {
          result := result.(reasoning := "");
        }
      }
    }
  }

  /** No event of the run uses a discarded call. */
  predicate Defined(s: State, events: seq<Event>)
    requires Valid(s)
    decreases |events|
  {
    events == [] || (!Undefined(s.current, events[0]) && Defined(Step(s, events[0]), events[1..]))
  }
}
