/** Which field of the message each tagged text ends in, told from the list of events alone. */
module MapperFields {
  import opened Wrappers
  import opened Text
  import opened Chat
  import opened Mapper
  import MapperCalls
  import Quotes

  // ---------- reasoning and content ----------

  /** The texts of the events with a tag, one behind the other. */
  function Texts(events: seq<Event>, tag: Tag): (text: string)
    decreases |events|
  {
    if events == [] then "" else (if events[0].tag == tag then events[0].text else "") + Texts(events[1..], tag)
  }

  predicate SameTexts(s: State, t: State)
  {
    t.msg.content == s.msg.content && t.msg.reasoning == s.msg.reasoning
  }

  /** Everything that is done to a call leaves the texts alone. */
  lemma {:induction false} CallTexts(s: State, call: ToolCall, text: string)
    requires Valid(s) && HasTool(s)
    ensures SameTexts(s, WithTool(s, call)) && SameTexts(s, WithArgs(s, text)) && SameTexts(s, AddArgs(s, text))
    ensures SameTexts(s, NameTool(s, text))
  {
  }

  lemma {:induction false} NamedTexts(s: State, text: string)
    requires Valid(s) && HasTool(s)
    ensures SameTexts(s, NameArg(s, text)) && SameTexts(s, AddString(s, text)) && SameTexts(s, CloseQuote(s))
  {
    hide ArgEntry, StringChunk;
  }

  lemma {:induction false} ClosedTexts(s: State)
    requires Valid(s) && HasTool(s)
    ensures SameTexts(s, CloseTool(s))
  {
    hide Braces, Quotes.BraceDepth;
  }

  lemma {:induction false} StepTexts(s: State, e: Event)
    requires Valid(s)
    ensures Step(s, e).msg.content == s.msg.content + if e.tag == Content then e.text else ""
    ensures Step(s, e).msg.reasoning == s.msg.reasoning + if e.tag == Reasoning then e.text else ""
  {
    assert s.msg.content + "" == s.msg.content && s.msg.reasoning + "" == s.msg.reasoning;
    if e.tag != Content && e.tag != Reasoning {
      hide Step;
      OtherTexts(s, e);
    }
  }

  lemma {:induction false} OtherTexts(s: State, e: Event)
    requires Valid(s) && e.tag != Content && e.tag != Reasoning
    ensures SameTexts(s, Step(s, e))
  {
    hide WithTool, WithArgs, AddArgs, NameTool, NameArg, AddString, CloseQuote, CloseTool, IsObjectText, IdText,
      TrimTrailing, Tool, Quotes.NormalizeAll;
    if HasTool(s) {
      match e.tag
      case ToolId => CallTexts(s, Tool(s).(id := IdText(e.text)), "");
      case ToolName => CallTexts(s, Tool(s), TrimTrailing(e.text));
      case ToolArgs => CallTexts(s, Tool(s), TrimTrailing(e.text));
      case ArgValue => CallTexts(s, Tool(s), Quotes.NormalizeAll(e.text));
      case ToolClose => ClosedTexts(s);
      case _ => NamedTexts(s, e.text);
    }
  }

  /** Over any run the content is what the `Content` events say, in order, and the reasoning what the `Reasoning` events
      say. */
  lemma {:induction false} RunTexts(s: State, events: seq<Event>)
    requires Valid(s)
    ensures Run(s, events).msg.content == s.msg.content + Texts(events, Content)
    ensures Run(s, events).msg.reasoning == s.msg.reasoning + Texts(events, Reasoning)
    decreases |events|
  {
    if events == [] {
      assert s.msg.content + "" == s.msg.content && s.msg.reasoning + "" == s.msg.reasoning;
    } else {
      hide Step;
      StepTexts(s, events[0]);
      RunTexts(Step(s, events[0]), events[1..]);
      var content := if events[0].tag == Content then events[0].text else "";
      var reasoning := if events[0].tag == Reasoning then events[0].text else "";
      Associate(s.msg.content, content, Texts(events[1..], Content));
      Associate(s.msg.reasoning, reasoning, Texts(events[1..], Reasoning));
    }
  }

  /** The message of a list of events: reasoning of spaces only is dropped. */
  lemma {:induction false} MessageTexts(events: seq<Event>)
    ensures var msg, reasoning := Finish(Run(START, events)), Texts(events, Reasoning);
            msg.content == Texts(events, Content) && msg.reasoning == if IsBlank(reasoning) then "" else reasoning
  {
    hide Run, IsBlank;
    RunTexts(START, events);
    assert "" + Texts(events, Content) == Texts(events, Content);
    assert "" + Texts(events, Reasoning) == Texts(events, Reasoning);
  }

  // ---------- the name and the id of a call ----------

  /** The name the last `ToolName` event gives, without trailing spaces. */
  function LastName(events: seq<Event>, before: string): (name: string)
    decreases |events|
  {
    if events == [] then before
    else LastName(events[1..], if events[0].tag == ToolName then TrimTrailing(events[0].text) else before)
  }

  /** The id the last `ToolId` event gives, without trailing spaces and one pair of quotes. */
  function LastId(events: seq<Event>, before: string): (id: string)
    decreases |events|
  {
    if events == [] then before
    else LastId(events[1..], if events[0].tag == ToolId then IdText(events[0].text) else before)
  }

  predicate Names(events: seq<Event>) { exists i :: 0 <= i < |events| && events[i].tag == ToolName }

  /** Nothing opens or closes a call. */
  predicate OneCall(events: seq<Event>)
  {
    forall i :: 0 <= i < |events| ==> events[i].tag != ToolOpen && events[i].tag != ToolClose
  }

  /** A named call is one of the message; an unnamed one is waiting. */
  predicate Current(s: State, calls: seq<ToolCall>)
  {
    Valid(s) && HasTool(s) && (s.current.Pending? ==> Tool(s).name == "") &&
    if s.current.Pending? then s.msg.calls == calls
    else |s.msg.calls| == |calls| + 1 && s.msg.calls[..|calls|] == calls
  }

  /** `t` has the same current call as `s`, but for its arguments. */
  predicate SameCall(s: State, t: State, calls: seq<ToolCall>)
    requires Valid(s) && HasTool(s)
  {
    Current(t, calls) && (t.current.Pending? <==> s.current.Pending?) &&
    Tool(t).name == Tool(s).name && Tool(t).id == Tool(s).id
  }

  lemma {:induction false} ArgsCurrent(s: State, calls: seq<ToolCall>, text: string)
    requires Current(s, calls)
    ensures SameCall(s, WithArgs(s, text), calls) && SameCall(s, AddArgs(s, text), calls)
  {
  }

  lemma {:induction false} NamedCurrent(s: State, calls: seq<ToolCall>, text: string)
    requires Current(s, calls)
    ensures SameCall(s, NameArg(s, text), calls) && SameCall(s, AddString(s, text), calls)
    ensures SameCall(s, CloseQuote(s), calls)
  {
    hide ArgEntry, StringChunk;
  }

  lemma {:induction false} StepCall(s: State, e: Event, calls: seq<ToolCall>)
    requires Current(s, calls) && e.tag != ToolOpen && e.tag != ToolClose
    ensures Current(Step(s, e), calls) && (Step(s, e).current.Pending? <==> s.current.Pending? && e.tag != ToolName)
    ensures Tool(Step(s, e)).name == if e.tag == ToolName then TrimTrailing(e.text) else Tool(s).name
    ensures Tool(Step(s, e)).id == if e.tag == ToolId then IdText(e.text) else Tool(s).id
  {
    if e.tag in {ToolArgs, ArgName, ArgValue, ArgStringValue, ArgClose} {
      hide Quotes.NormalizeAll, TrimTrailing, IsObjectText, WithArgs, AddArgs, NameArg, AddString, CloseQuote;
      ArgsCurrent(s, calls, TrimTrailing(e.text));
      ArgsCurrent(s, calls, Quotes.NormalizeAll(e.text));
      NamedCurrent(s, calls, e.text);
    } else {
      hide IdText, TrimTrailing;
    }
  }

  lemma {:induction false} RunCall(s: State, events: seq<Event>, calls: seq<ToolCall>)
    requires Current(s, calls) && OneCall(events)
    ensures var t := Run(s, events);
            Current(t, calls) && (t.current.Pending? <==> s.current.Pending? && !Names(events)) &&
            Tool(t).name == LastName(events, Tool(s).name) && Tool(t).id == LastId(events, Tool(s).id)
    decreases |events|
  {
    if events != [] {
      hide Step, Current, HasTool, Tool;
      StepCall(s, events[0], calls);
      var rest := events[1..];
      assert forall i :: 0 <= i < |rest| ==> rest[i] == events[i + 1];
      RunCall(Step(s, events[0]), rest, calls);
      NamesMore(events);
    }
  }

  lemma {:induction false} NamesMore(events: seq<Event>)
    requires events != []
    ensures Names(events) <==> events[0].tag == ToolName || Names(events[1..])
  {
    if i :| 0 <= i < |events| && events[i].tag == ToolName && i > 0 { assert events[1..][i - 1] == events[i]; }
    if i :| 0 <= i < |events[1..]| && events[1..][i].tag == ToolName { assert events[i + 1] == events[1..][i]; }
  }

  lemma {:induction false} CloseCall(s: State, calls: seq<ToolCall>)
    requires Current(s, calls)
    ensures var t := CloseTool(s);
            if s.current.Pending? then t.msg.calls == calls
            else
              |t.msg.calls| == |calls| + 1 && t.msg.calls[..|calls|] == calls &&
              t.msg.calls[|calls|].name == Tool(s).name && t.msg.calls[|calls|].id == Tool(s).id
  {
    hide Quotes.BraceDepth, Braces;
  }

  /** The events of one call, from its opening to its closing, whatever the markers are. */
  function Spanned(open: string, events: seq<Event>, close: string): (r: seq<Event>)
  {
    [Event(ToolOpen, open)] + events + [Event(ToolClose, close)]
  }

  /** A call adds nothing to the message if it is never named, and otherwise one call behind the others, with the name
      and the id that were given last. */
  lemma {:induction false} CallFields(s: State, open: string, events: seq<Event>, close: string)
    requires Valid(s) && OneCall(events)
    ensures var calls := Run(s, Spanned(open, events, close)).msg.calls;
            if !Names(events) then calls == s.msg.calls
            else
              |calls| == |s.msg.calls| + 1 && calls[..|s.msg.calls|] == s.msg.calls &&
              calls[|s.msg.calls|].name == LastName(events, "") && calls[|s.msg.calls|].id == LastId(events, "")
  {
    hide CloseTool, Current;
    var calls := s.msg.calls;
    var s1 := Step(s, Event(ToolOpen, open));
    Opened(s, open);
    RunCall(s1, events, calls);
    var s2 := Run(s1, events);
    CurrentTool(s2, calls);
    CloseCall(s2, calls);
    RunSpanned(s, open, events, close);
  }

  lemma {:induction false} Opened(s: State, open: string)
    requires Valid(s)
    ensures var t := Step(s, Event(ToolOpen, open));
            Current(t, s.msg.calls) && t.current.Pending? && Tool(t).name == "" && Tool(t).id == ""
  {
  }

  lemma {:induction false} CurrentTool(s: State, calls: seq<ToolCall>)
    requires Current(s, calls)
    ensures Valid(s) && HasTool(s)
  {
  }

  lemma {:induction false} RunSpanned(s: State, open: string, events: seq<Event>, close: string)
    requires Valid(s)
    ensures Run(s, Spanned(open, events, close)) ==
            Step(Run(Step(s, Event(ToolOpen, open)), events), Event(ToolClose, close))
  {
    hide Step;
    MapperCalls.RunAppend(s, [Event(ToolOpen, open)] + events, [Event(ToolClose, close)]);
    MapperCalls.RunAppend(s, [Event(ToolOpen, open)], events);
    RunOne(s, Event(ToolOpen, open));
    RunOne(Run(s, [Event(ToolOpen, open)] + events), Event(ToolClose, close));
  }

  lemma {:induction false} RunOne(s: State, e: Event)
    requires Valid(s)
    ensures Run(s, [e]) == Step(s, e)
  {
    hide Step;
    assert [e][1..] == [];
  }

  lemma {:induction false} RunTwo(s: State, events: seq<Event>)
    requires Valid(s) && |events| == 2
    ensures Run(s, events) == Step(Step(s, events[0]), events[1])
  {
    hide Step;
    assert events[1..] == [events[1]];
    assert Run(s, events) == Run(Step(s, events[0]), events[1..]);
    RunOne(Step(s, events[0]), events[1]);
  }

  // ---------- arguments that come as one object ----------

  /** A call whose arguments are one text that starts with a brace gets exactly that text, with the braces it leaves
      open closed, whether the name comes before or after it. */
  lemma {:induction false} ObjectCall(s: State, open: string, name: string, text: string, close: string,
                                      nameFirst: bool)
    requires Valid(s) && TrimTrailing(name) != "" && IsObjectText(text)
    ensures var events := if nameFirst then [Event(ToolName, name), Event(ToolArgs, text)]
                          else [Event(ToolArgs, text), Event(ToolName, name)];
            var args := TrimTrailing(text);
            Run(s, Spanned(open, events, close)).msg.calls ==
            s.msg.calls + [ToolCall(TrimTrailing(name), args + Braces(Quotes.BraceDepth(args)), "")]
  {
    hide Quotes.BraceDepth, Braces, TrimTrailing;
    var a, b := Event(ToolName, name), Event(ToolArgs, text);
    var events := if nameFirst then [a, b] else [b, a];
    RunSpanned(s, open, events, close);
    var s1 := Step(s, Event(ToolOpen, open));
    RunTwo(s1, events);
  }

  // ---------- ids ----------

  /** The id of a call is the text between its quotes, or the text itself, without the spaces behind it. */
  lemma {:induction false} IdIs(id: string, spaces: string)
    requires forall i :: 0 <= i < |spaces| ==> IsSpace(spaces[i])
    ensures IdText("\"" + id + "\"" + spaces) == id
    ensures id != "" && id[0] != '"' && !IsSpace(id[|id| - 1]) ==> IdText(id + spaces) == id
  {
    hide TrimTrailing;
    var quoted := "\"" + id + "\"";
    TrimmedIs(quoted, spaces);
    assert quoted[1..|quoted| - 1] == id;
    if id != "" && !IsSpace(id[|id| - 1]) { TrimmedIs(id, spaces); }
  }

  lemma {:induction false} TrimmedIs(s: string, spaces: string)
    requires s != "" && !IsSpace(s[|s| - 1]) && forall i :: 0 <= i < |spaces| ==> IsSpace(spaces[i])
    ensures TrimTrailing(s + spaces) == s
    decreases |spaces|
  {
    if spaces == "" {
      assert s + "" == s;
    } else {
      var n := |spaces| - 1;
      assert (s + spaces)[..|s| + n] == s + spaces[..n];
      TrimmedIs(s, spaces[..n]);
    }
  }
}
