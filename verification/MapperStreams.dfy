/** Whole runs of the mapper. While a parse proceeds, the list of events gets longer and the text of the last
    one grows; the message built from a later list only extends the message built from an earlier one, so the
    differ never throws and the client ends with the final message. */
module MapperStreams {
  import opened Wrappers
  import opened Text
  import opened Chat
  import opened Mapper
  import Json
  import Quotes

  // ---------- well-formed runs ----------

  /** Where a run stands: outside calls, or inside one whose name, id and arguments may have been seen and that
      may have a string value open. */
  datatype Phase = Outside | Call(named: bool, hasId: bool, started: bool, quote: bool)

  /** The phase after an event; None if the event is out of order. A call is named at most once and not blankly,
      an id is not taken back, a whole argument object comes before any argument, and an empty piece of a string
      value only opens it. */
  function Next(p: Phase, e: Event): (r: Option<Phase>)
  {
    if e.tag in {Reasoning, Content, Other} then Some(p)
    else if e.tag.ToolOpen? then Some(Call(false, false, false, false))
    else if p.Outside? then None
    else NextInCall(p.named, p.hasId, p.started, p.quote, e)
  }

  function NextInCall(named: bool, hasId: bool, started: bool, quote: bool, e: Event): (r: Option<Phase>)
  {
    match e.tag
    case ToolId =>
      if hasId && IdText(e.text) == "" then None else Some(Call(named, IdText(e.text) != "", started, quote))
    case ToolName => if named || TrimTrailing(e.text) == "" then None else Some(Call(true, hasId, started, quote))
    case ToolArgs =>
      if started && IsObjectText(e.text) then None else Some(Call(named, hasId, started || IsObjectText(e.text), quote))
    case ArgName => Some(Call(named, hasId, true, quote))
    case ArgValue => Some(Call(named, hasId, true, quote))
    case ArgStringValue => if quote && e.text == "" then None else Some(Call(named, hasId, true, true))
    case ArgOpen => Some(Call(named, hasId, started, false))
    case ArgClose => Some(Call(named, hasId, started, false))
    case ToolClose => Some(Outside)
    case _ => None
  }

  predicate WellFormed(p: Phase, events: seq<Event>)
    decreases |events|
  {
    events == [] || (Next(p, events[0]).Some? && WellFormed(Next(p, events[0]).value, events[1..]))
  }

  /** What the phase says about the mapper. */
  predicate Inv(s: State, p: Phase)
  {
    Valid(s) && (s.pending.Some? ==> s.pending.value.name == "" && s.pending.value.arguments == "") &&
    (p.Call? ==> InCall(s, p))
  }

  predicate InCall(s: State, p: Phase)
    requires Valid(s) && p.Call?
  {
    HasTool(s) && s.quote == p.quote && (s.current.Last? <==> p.named) && (p.named <==> Tool(s).name != "") &&
    (p.hasId <==> Tool(s).id != "") && (p.quote ==> p.started) &&
    (!p.started ==> Args(s) == if p.named then "{" else "")
  }

  /** Well-formed runs never use a discarded call. */
  lemma {:induction false} WellFormedDefined(s: State, p: Phase, events: seq<Event>)
    requires Inv(s, p) && WellFormed(p, events)
    ensures Defined(s, events)
    decreases |events|
  {
    if events != [] {
      StepKeeps(s, p, events[0]);
      hide Step;
      WellFormedDefined(Step(s, events[0]), Next(p, events[0]).value, events[1..]);
    }
  }

  // ---------- one event ----------

  /** Two versions of the call being written, the second extending the first. */
  lemma {:induction false} CallGrows(s: State, a: ToolCall, b: ToolCall)
    requires Valid(s) && HasTool(s) && (s.current.Last? ==> CallExtends(a, b))
    ensures Extends(WithTool(s, a).msg, WithTool(s, b).msg)
  {
  }

  lemma {:induction false} SameTool(s: State)
    requires Valid(s) && HasTool(s)
    ensures WithTool(s, Tool(s)) == s
  {
    if s.current.Last? {
      assert s.msg.calls[|s.msg.calls| - 1 := Tool(s)] == s.msg.calls;
    }
  }

  lemma {:induction false} ArgsGrow(s: State, a: string, b: string)
    requires Valid(s) && HasTool(s) && a <= b
    ensures Extends(WithArgs(s, a).msg, WithArgs(s, b).msg)
  {
    hide WithTool;
    var call := Tool(s);
    if call.name != "" {
      CallGrows(s, call.(arguments := a), call.(arguments := b));
    }
  }

  lemma {:induction false} SameArgs(s: State)
    requires Valid(s) && HasTool(s)
    ensures WithArgs(s, Args(s)) == s
  {
    hide WithTool;
    SameTool(s);
  }

  lemma {:induction false} AddGrows(s: State, a: string, b: string)
    requires Valid(s) && HasTool(s) && a <= b
    ensures Extends(AddArgs(s, a).msg, AddArgs(s, b).msg)
    ensures Extends(s.msg, AddArgs(s, a).msg)
  {
    hide WithArgs;
    ArgsGrow(s, Args(s) + a, Args(s) + b);
    SameArgs(s);
    ArgsGrow(s, Args(s), Args(s) + a);
  }

  /** Writing arguments keeps the call and the phase. */
  lemma {:induction false} ArgsKeep(s: State, p: Phase, text: string)
    requires Inv(s, p) && p.Call?
    ensures Inv(WithArgs(s, text), p.(started := true))
  {
  }

  lemma {:induction false} MessageKeeps(s: State, p: Phase, msg: Message)
    requires Inv(s, p) && msg.calls == s.msg.calls
    ensures Inv(s.(msg := msg), p)
  {
  }

  lemma {:induction false} NamedKeeps(s: State, p: Phase, name: string)
    requires Inv(s, p) && p.Call? && !p.named && name != ""
    ensures Inv(NameTool(s, name), p.(named := true))
    ensures Extends(s.msg, NameTool(s, name).msg)
  {
  }

  lemma {:induction false} ClosedKeeps(s: State, p: Phase)
    requires Inv(s, p) && p.Call?
    ensures Inv(CloseTool(s), Outside)
    ensures Extends(s.msg, CloseTool(s).msg)
  {
    hide Quotes.BraceDepth, Braces, Extends;
    if p.named {
      var t := EndQuote(s);
      assert FlushBuffer(s) == s;
      GrownArguments(s, if s.quote then "\"" else "");
      GrownArguments(t, Braces(Quotes.BraceDepth(Tool(t).arguments)));
      ExtendsTransitive(s.msg, t.msg, EndBraces(t).msg);
    } else {
      SameMessage(s.msg);
    }
  }

  lemma {:induction false} SameMessage(msg: Message)
    ensures Extends(msg, msg)
  {
  }

  lemma {:induction false} GrownArguments(s: State, text: string)
    requires Valid(s) && HasTool(s)
    ensures Extends(s.msg, WithTool(s, Tool(s).(arguments := Tool(s).arguments + text)).msg)
    ensures text == "" ==> WithTool(s, Tool(s).(arguments := Tool(s).arguments + text)) == s
  {
    hide WithTool;
    SameTool(s);
    CallGrows(s, Tool(s), Tool(s).(arguments := Tool(s).arguments + text));
    if text == "" { assert Tool(s).arguments + text == Tool(s).arguments; }
  }

  lemma {:induction false} NameArgKeeps(s: State, p: Phase, name: string)
    requires Inv(s, p) && p.Call?
    ensures Inv(NameArg(s, name), p.(started := true))
    ensures Extends(s.msg, NameArg(s, name).msg)
  {
    hide WithArgs, ArgEntry, Inv, Extends;
    CallOnly(s, p);
    var s' := if Args(s) == "" then WithArgs(s, "{") else s;
    var p' := if Args(s) == "" then p.(started := true) else p;
    assert Inv(s', p') && Extends(s.msg, s'.msg) by {
      SameMessage(s.msg);
      if Args(s) == "" {
        ArgsKeep(s, p, "{");
        SameArgs(s);
        ArgsGrow(s, "", "{");
      }
    }
    var c := s'.(argCount := s.argCount + 1);
    CountKeeps(s', p', s.argCount + 1);
    AddGrows(c, ArgEntry(s, name), ArgEntry(s, name));
    ArgsKeep(c, p', Args(c) + ArgEntry(s, name));
    ExtendsTransitive(s.msg, c.msg, NameArg(s, name).msg);
  }

  lemma {:induction false} CountKeeps(s: State, p: Phase, n: nat)
    requires Inv(s, p)
    ensures Inv(s.(argCount := n), p)
  {
  }

  lemma {:induction false} QuoteKeeps(s: State, p: Phase, quote: bool)
    requires Inv(s, p) && p.Call?
    ensures Inv(s.(quote := quote), p.(quote := quote, started := p.started || quote))
  {
  }

  lemma {:induction false} IdKeeps(s: State, p: Phase, id: string)
    requires Inv(s, p) && p.Call? && (p.hasId ==> id != "")
    ensures Inv(WithTool(s, Tool(s).(id := id)), p.(hasId := id != ""))
    ensures Extends(s.msg, WithTool(s, Tool(s).(id := id)).msg)
  {
    SameTool(s);
    CallGrows(s, Tool(s), Tool(s).(id := id));
  }

  lemma {:induction false} ObjectKeeps(s: State, p: Phase, text: string)
    requires Inv(s, p) && p.Call? && !p.started && IsObjectText(text)
    ensures Inv(WithArgs(s, TrimTrailing(text)), p.(started := true))
    ensures Extends(s.msg, WithArgs(s, TrimTrailing(text)).msg)
  {
    hide WithArgs;
    SameArgs(s);
    ArgsGrow(s, Args(s), TrimTrailing(text));
    ArgsKeep(s, p, TrimTrailing(text));
  }

  /** Every event in order keeps the invariant and extends the message. */
  lemma {:induction false} StepKeeps(s: State, p: Phase, e: Event)
    requires Inv(s, p) && Next(p, e).Some?
    ensures Inv(Step(s, e), Next(p, e).value)
    ensures Extends(s.msg, Step(s, e).msg)
  {
    hide Inv, Extends, NameTool, CloseTool, NameArg, WithTool, WithArgs, AddArgs, StringChunk, Quotes.NormalizeAll,
      IsObjectText, IdText, TrimTrailing;
    SameMessage(s.msg);
    CallOnly(s, p);
    match e.tag
    case Reasoning => TextGrows(s.msg, e.text); MessageKeeps(s, p, s.msg.(reasoning := s.msg.reasoning + e.text));
    case Content => TextGrows(s.msg, e.text); MessageKeeps(s, p, s.msg.(content := s.msg.content + e.text));
    case Other =>
    case ToolOpen => OpenKeeps(s);
    case ToolId => IdKeeps(s, p, IdText(e.text));
    case ToolName => NamedKeeps(s, p, TrimTrailing(e.text));
    case ToolArgs => if IsObjectText(e.text) { ObjectKeeps(s, p, e.text); }
    case ToolClose => ClosedKeeps(s, p);
    case ArgOpen => QuoteKeeps(s, p, false);
    case ArgName => NameArgKeeps(s, p, e.text);
    case ArgValue => AddKeeps(s, p, Quotes.NormalizeAll(e.text));
    case ArgStringValue =>
      QuoteKeeps(s, p, true);
      AddKeeps(s.(quote := true), p.(quote := true, started := true), StringChunk(e.text, s.quote));
    case ArgClose =>
      if s.quote {
        StartedQuote(s, p);
      } else {
        QuoteKeeps(s, p, false);
      }
  }

  lemma {:induction false} CallOnly(s: State, p: Phase)
    requires Inv(s, p)
    ensures Valid(s) && (p.Call? ==> HasTool(s) && s.quote == p.quote)
  {
  }

  lemma {:induction false} OpenKeeps(s: State)
    ensures Inv(State(s.msg, Some(NO_CALL), Pending, 0, false, ""), Call(false, false, false, false))
  {
  }

  lemma {:induction false} AddKeeps(s: State, p: Phase, text: string)
    requires Inv(s, p) && p.Call?
    ensures HasTool(s) && Inv(AddArgs(s, text), p.(started := true))
    ensures Extends(s.msg, AddArgs(s, text).msg)
  {
    hide WithArgs;
    ArgsKeep(s, p, Args(s) + text);
    AddGrows(s, text, text);
  }

  /** A pending quote means the arguments have started. */
  lemma {:induction false} StartedQuote(s: State, p: Phase)
    requires Inv(s, p) && p.Call? && s.quote
    ensures HasTool(s) && Inv(CloseQuote(s), p.(quote := false))
    ensures Extends(s.msg, CloseQuote(s).msg)
  {
    hide AddArgs;
    AddKeeps(s, p, "\"");
  }

  lemma {:induction false} TextGrows(msg: Message, text: string)
    ensures Extends(msg, msg.(reasoning := msg.reasoning + text))
    ensures Extends(msg, msg.(content := msg.content + text))
  {
  }

  // ---------- one event seen earlier and later ----------

  /** An event the mapper does nothing with inside a call, the span of tagged arguments: its text may change as the
      parse proceeds. */
  predicate Idle(e: Event) { e.tag.ToolArgs? && !IsObjectText(e.text) }

  /** An event that is no longer the last one has its final text. */
  predicate Same(e: Event, f: Event) { e == f || (e.tag == f.tag && Idle(e) && Idle(f)) }

  /** The last event of an earlier parse, seen again later. Texts of atomic tags are complete at once; a value
      whose text is normalised must have been cut cleanly. */
  predicate Grown(e: Event, f: Event)
  {
    Same(e, f) ||
    (e.tag == f.tag && e.text <= f.text &&
     (e.tag in {Reasoning, Content, ToolArgs, ArgStringValue} || (e.tag.ArgValue? && Quotes.CleanCut(e.text, f.text))))
  }

  lemma {:induction false} SameStep(s: State, p: Phase, e: Event, f: Event)
    requires Valid(s) && Same(e, f)
    ensures Step(s, e) == Step(s, f) && Next(p, e) == Next(p, f)
  {
  }

  /** The longer version of an event gives the longer message. */
  lemma {:induction false} EventGrows(s: State, p: Phase, e: Event, f: Event)
    requires Inv(s, p) && Next(p, e).Some? && Next(p, f).Some? && Grown(e, f)
    ensures Extends(Step(s, e).msg, Step(s, f).msg)
  {
    hide Inv, Extends, WithArgs, AddArgs, StringChunk, Quotes.NormalizeAll, Quotes.CleanCut, IsObjectText, TrimTrailing;
    CallOnly(s, p);
    if Same(e, f) {
      SameStep(s, p, e, f);
      SameMessage(Step(s, e).msg);
    } else if e.tag.Reasoning? || e.tag.Content? {
      LongerText(s.msg, e.text, f.text);
    } else if e.tag.ToolArgs? {
      ObjectGrows(s, p, e.text, f.text);
    } else if e.tag.ArgValue? {
      Quotes.NormalizeMonotone(e.text, f.text);
      AddGrows(s, Quotes.NormalizeAll(e.text), Quotes.NormalizeAll(f.text));
    } else {
      ChunkGrows(e.text, f.text, s.quote);
      AddGrows(s.(quote := true), StringChunk(e.text, s.quote), StringChunk(f.text, s.quote));
    }
  }

  lemma {:induction false} LongerText(msg: Message, a: string, b: string)
    requires a <= b
    ensures Extends(msg.(reasoning := msg.reasoning + a), msg.(reasoning := msg.reasoning + b))
    ensures Extends(msg.(content := msg.content + a), msg.(content := msg.content + b))
  {
  }

  lemma {:induction false} ObjectGrows(s: State, p: Phase, a: string, b: string)
    requires Inv(s, p) && p.Call? && a <= b && Next(p, Event(ToolArgs, a)).Some? && Next(p, Event(ToolArgs, b)).Some?
    ensures Extends(Step(s, Event(ToolArgs, a)).msg, Step(s, Event(ToolArgs, b)).msg)
  {
    hide WithArgs, Extends;
    SameMessage(s.msg);
    TrimMonotone(a, b);
    if IsObjectText(a) {
      assert TrimTrailing(b)[0] == TrimTrailing(a)[0];
      ArgsGrow(s, TrimTrailing(a), TrimTrailing(b));
    } else if IsObjectText(b) {
      ObjectKeeps(s, p, b);
    }
  }

  lemma {:induction false} ChunkGrows(a: string, b: string, quote: bool)
    requires a <= b
    ensures StringChunk(a, quote) <= StringChunk(b, quote) <==> !(quote && a == "" && b != "")
  {
    Json.EscapeMonotone(a, b);
    if quote && a == "" && b != "" {
      assert StringChunk(b, quote)[0] == Json.Escape(b)[0] == Json.EscapeChar(b[0])[0];
    }
  }

  /** Inside a named call a growing untyped value grows the message exactly when the cut is clean. */
  lemma {:induction false} ValueGrowsExactly(s: State, p: Phase, a: string, b: string)
    requires Inv(s, p) && p.Call? && p.named && a <= b
    ensures Extends(Step(s, Event(ArgValue, a)).msg, Step(s, Event(ArgValue, b)).msg) <==> Quotes.CleanCut(a, b)
  {
    hide Quotes.NormalizeAll, Quotes.CleanCut;
    Quotes.NormalizeMonotone(a, b);
    AddedExactly(s, Quotes.NormalizeAll(a), Quotes.NormalizeAll(b));
  }

  /** And a growing string value grows it unless an empty piece turns up while a piece is already open: the quote
      it adds is taken back when the piece gets text. */
  lemma {:induction false} StringGrowsExactly(s: State, p: Phase, a: string, b: string)
    requires Inv(s, p) && p.Call? && p.named && a <= b
    ensures Extends(Step(s, Event(ArgStringValue, a)).msg, Step(s, Event(ArgStringValue, b)).msg) <==>
            !(s.quote && a == "" && b != "")
  {
    hide StringChunk;
    ChunkGrows(a, b, s.quote);
    AddedExactly(s.(quote := true), StringChunk(a, s.quote), StringChunk(b, s.quote));
  }

  /** A value in two pieces, the second empty at first: its text takes back the closing quote. */
  lemma {:induction false} StringShrinks()
    ensures var s := Step(Step(Step(START, Event(ToolOpen, "")), Event(ToolName, "f")), Event(ArgStringValue, "a"));
            !Extends(Step(s, Event(ArgStringValue, "")).msg, Step(s, Event(ArgStringValue, "b")).msg)
  {
    hide Step, Extends, TrimTrailing;
    var e1, e2, e3 := Event(ToolOpen, ""), Event(ToolName, "f"), Event(ArgStringValue, "a");
    var s1 := Step(START, e1);
    var s2 := Step(s1, e2);
    LetterStays();
    StepKeeps(START, Outside, e1);
    StepKeeps(s1, Call(false, false, false, false), e2);
    StepKeeps(s2, Call(true, false, false, false), e3);
    StringGrowsExactly(Step(s2, e3), Call(true, false, true, true), "", "b");
  }

  lemma {:induction false} LetterStays()
    ensures TrimTrailing("f") == "f"
  {
  }

  lemma {:induction false} AddedExactly(s: State, a: string, b: string)
    requires Valid(s) && s.current.Last? && Tool(s).name != ""
    ensures Extends(AddArgs(s, a).msg, AddArgs(s, b).msg) <==> a <= b
  {
    PrefixAppend(Args(s), a, b);
  }

  // ---------- the event list seen earlier and later ----------

  /** The events the mapper looks at. The nodes below a growing value come after it in the visit, untagged, so the
      value is the last of these events though not of the list. */
  function Visible(events: seq<Event>): (r: seq<Event>)
  {
    if events == [] then []
    else if events[0].tag.Other? then Visible(events[1..])
    else [events[0]] + Visible(events[1..])
  }

  lemma {:induction false} VisibleAppend(a: seq<Event>, b: seq<Event>)
    ensures Visible(a + b) == Visible(a) + Visible(b)
  {
    if a == [] {
      assert a + b == b;
    } else {
      assert (a + b)[1..] == a[1..] + b;
      VisibleAppend(a[1..], b);
    }
  }

  /** Leaving the others out changes neither the run nor whether it is well-formed. */
  lemma {:induction false} VisibleRun(s: State, p: Phase, events: seq<Event>)
    requires Valid(s)
    ensures Run(s, Visible(events)) == Run(s, events)
    ensures WellFormed(p, Visible(events)) <==> WellFormed(p, events)
    decreases |events|
  {
    if events != [] {
      var e, rest := events[0], Visible(events[1..]);
      OtherStep(s, p, e);
      hide Step, Next;
      VisibleRun(Step(s, e), if Next(p, e).Some? then Next(p, e).value else p, events[1..]);
      assert ([e] + rest)[1..] == rest;
    }
  }

  lemma {:induction false} OtherStep(s: State, p: Phase, e: Event)
    requires Valid(s)
    ensures e.tag.Other? ==> Step(s, e) == s && Next(p, e) == Some(p)
  {
  }

  /** `fs` is a later list of visible events than `es`: only the last one of `es` may have grown. */
  predicate Continues(es: seq<Event>, fs: seq<Event>)
    decreases |es|
  {
    es == [] ||
    (fs != [] && if |es| == 1 then Grown(es[0], fs[0]) else Same(es[0], fs[0]) && Continues(es[1..], fs[1..]))
  }

  lemma {:induction false} RunKeeps(s: State, p: Phase, events: seq<Event>)
    requires Inv(s, p) && WellFormed(p, events)
    ensures Extends(s.msg, Run(s, events).msg)
    ensures var t := Run(s, events); t.pending.Some? ==> t.pending.value.name == ""
    decreases |events|
  {
    if events == [] {
      SameMessage(s.msg);
    } else {
      StepKeeps(s, p, events[0]);
      hide Step, Next, Extends, Inv;
      var s' := Step(s, events[0]);
      RunKeeps(s', Next(p, events[0]).value, events[1..]);
      ExtendsTransitive(s.msg, s'.msg, Run(s', events[1..]).msg);
    }
  }

  lemma {:induction false} RunGrows(s: State, p: Phase, es: seq<Event>, fs: seq<Event>)
    requires Inv(s, p) && WellFormed(p, es) && WellFormed(p, fs) && Continues(es, fs)
    ensures Extends(Run(s, es).msg, Run(s, fs).msg)
    decreases |es|
  {
    hide Step, Next, Extends, Inv, Same, Grown;
    if es == [] {
      RunKeeps(s, p, fs);
    } else {
      StepKeeps(s, p, es[0]);
      StepKeeps(s, p, fs[0]);
      CallOnly(s, p);
      if |es| == 1 {
        EventGrows(s, p, es[0], fs[0]);
        RunOne(s, es);
        var t := Step(s, fs[0]);
        RunKeeps(t, Next(p, fs[0]).value, fs[1..]);
        ExtendsTransitive(Step(s, es[0]).msg, t.msg, Run(t, fs[1..]).msg);
      } else {
        SameStep(s, p, es[0], fs[0]);
        RunGrows(Step(s, es[0]), Next(p, es[0]).value, es[1..], fs[1..]);
      }
    }
  }

  lemma {:induction false} RunOne(s: State, es: seq<Event>)
    requires Valid(s) && |es| == 1
    ensures Run(s, es) == Step(s, es[0])
  {
  }

  /** `fs` is a later view of the parse `es` is an earlier view of. */
  predicate Later(es: seq<Event>, fs: seq<Event>) { Continues(Visible(es), Visible(fs)) }

  /** The message a parse gives. */
  function MessageOf(events: seq<Event>): (msg: Message) { Finish(Run(START, events)) }

  lemma {:induction false} CleanedGrows(a: Message, b: Message)
    requires Extends(a, b)
    ensures Extends(if IsBlank(a.reasoning) then a.(reasoning := "") else a,
                    if IsBlank(b.reasoning) then b.(reasoning := "") else b)
  {
    if IsBlank(b.reasoning) {
      assert forall i :: 0 <= i < |a.reasoning| ==> a.reasoning[i] == b.reasoning[i];
    }
  }

  /** The message of a later view extends the message of an earlier one. */
  lemma {:induction false} MessageGrows(es: seq<Event>, fs: seq<Event>)
    requires WellFormed(Outside, es) && WellFormed(Outside, fs) && Later(es, fs)
    ensures Extends(MessageOf(es), MessageOf(fs))
  {
    hide Run, Extends, WellFormed, Continues, Visible;
    VisibleRun(START, Outside, es);
    VisibleRun(START, Outside, fs);
    RunKeeps(START, Outside, Visible(es));
    RunKeeps(START, Outside, Visible(fs));
    RunGrows(START, Outside, Visible(es), Visible(fs));
    CleanedGrows(Run(START, es).msg, Run(START, fs).msg);
  }

  /** A prefix of a well-formed run is one, and the run is a later view of it. */
  lemma {:induction false} PrefixLater(p: Phase, events: seq<Event>, k: nat)
    requires k <= |events| && WellFormed(p, events)
    ensures WellFormed(p, events[..k]) && Later(events[..k], events)
  {
    hide Visible;
    PrefixWellFormed(p, events, k);
    assert events == events[..k] + events[k..];
    VisibleAppend(events[..k], events[k..]);
    PrefixContinues(Visible(events[..k]), Visible(events[k..]));
  }

  lemma {:induction false} PrefixWellFormed(p: Phase, events: seq<Event>, k: nat)
    requires k <= |events| && WellFormed(p, events)
    ensures WellFormed(p, events[..k])
    decreases k
  {
    if k > 0 {
      hide Next;
      assert events[..k][0] == events[0];
      assert events[..k][1..] == events[1..][..k - 1];
      PrefixWellFormed(Next(p, events[0]).value, events[1..], k - 1);
    }
  }

  lemma {:induction false} PrefixContinues(es: seq<Event>, more: seq<Event>)
    ensures Continues(es, es + more)
    decreases |es|
  {
    if es != [] {
      hide Same, Grown;
      SameEvent(es[0]);
      assert (es + more)[1..] == es[1..] + more;
      PrefixContinues(es[1..], more);
    }
  }

  lemma {:induction false} SameEvent(e: Event)
    ensures Same(e, e) && Grown(e, e)
  {
  }

  /** A value that grows while the nodes below it change is a later view, whatever follows. */
  lemma {:induction false} GrowsAboveItsNodes(before: seq<Event>, e: Event, below: seq<Event>, f: Event,
                                              below': seq<Event>, rest: seq<Event>)
    requires Grown(e, f) && !e.tag.Other?
    requires forall i :: 0 <= i < |below| ==> below[i].tag.Other?
    requires forall i :: 0 <= i < |below'| ==> below'[i].tag.Other?
    ensures Later(before + [e] + below, before + [f] + below' + rest)
  {
    hide Grown;
    VisibleAppend(before + [e], below);
    VisibleAppend(before, [e]);
    VisibleAppend(before + [f] + below', rest);
    VisibleAppend(before + [f], below');
    VisibleAppend(before, [f]);
    NothingVisible(below);
    NothingVisible(below');
    GrownTag(e, f);
    assert Visible([e]) == [e] && Visible([f]) == [f] by { assert [e][1..] == [] && [f][1..] == []; }
    hide Visible;
    var vs, more := Visible(before), Visible(rest);
    assert Visible(before + [e] + below) == vs + [e];
    assert Visible(before + [f] + below' + rest) == vs + ([f] + more);
    LastGrows(vs, e, f, more);
  }

  lemma {:induction false} GrownTag(e: Event, f: Event)
    requires Grown(e, f)
    ensures e.tag == f.tag
  {
  }

  lemma {:induction false} NothingVisible(below: seq<Event>)
    requires forall i :: 0 <= i < |below| ==> below[i].tag.Other?
    ensures Visible(below) == []
  {
    if below != [] { NothingVisible(below[1..]); }
  }

  lemma {:induction false} LastGrows(vs: seq<Event>, e: Event, f: Event, more: seq<Event>)
    requires Grown(e, f)
    ensures Continues(vs + [e], vs + ([f] + more))
    decreases |vs|
  {
    hide Grown, Same;
    var es, fs := vs + [e], vs + ([f] + more);
    if vs == [] {
      assert es == [e] && fs[0] == f;
    } else {
      SameEvent(vs[0]);
      assert es[1..] == vs[1..] + [e] && fs[1..] == vs[1..] + ([f] + more);
      LastGrows(vs[1..], e, f, more);
    }
  }

  // ---------- the whole stream ----------

  /** The views a server gets as more and more of the answer is parsed. */
  predicate Stream(views: seq<seq<Event>>)
  {
    (forall i :: 0 <= i < |views| ==> WellFormed(Outside, views[i])) &&
    (forall i :: 0 <= i < |views| - 1 ==> Later(views[i], views[i + 1]))
  }

  function Messages(views: seq<seq<Event>>): (ms: seq<Message>)
    ensures |ms| == |views|
    ensures forall i :: 0 <= i < |ms| ==> ms[i] == MessageOf(views[i])
  {
    seq(|views|, i requires 0 <= i < |views| => MessageOf(views[i]))
  }

  /** Sending only the differences between successive messages never throws, and the client ends with the final
      content, reasoning and tool calls. */
  lemma {:induction false} ClientEndsWithFinalMessage(views: seq<seq<Event>>, gen: nat -> string)
    requires views != [] && Stream(views)
    ensures var r := Serve(EMPTY, Ids([], 0), EMPTY, Messages(views), gen);
            r.Some? && SameButIds(r.value.1, MessageOf(views[|views| - 1]))
  {
    hide MessageOf, WellFormed, Later, Extends, Serve;
    var ms := Messages(views);
    forall i | 0 <= i < |ms|
      ensures Extends(([EMPTY] + ms)[i], ([EMPTY] + ms)[i + 1])
    {
      if i == 0 {
        FromNothing(ms[0]);
      } else {
        assert Later(views[i - 1], views[i]);
        MessageGrows(views[i - 1], views[i]);
      }
    }
    StreamFaithful(EMPTY, EMPTY, Ids([], 0), ms, gen);
  }

  lemma {:induction false} FromNothing(msg: Message)
    ensures Extends(EMPTY, msg)
  {
  }
}
