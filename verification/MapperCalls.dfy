/** The arguments text of a finished call whose arguments are declared as strings: it is the JSON object of the
    trimmed names and the values, in order, however the events of the call were cut and interleaved. */
module MapperCalls {
  import opened Wrappers
  import opened Text
  import opened Chat
  import opened Mapper
  import Json
  import Quotes

  /** One string argument: its name as written and the pieces its value arrived in. */
  datatype Arg = Arg(name: string, pieces: seq<string>)

  /** Every argument has a value, and only the first piece of a value may be empty. */
  predicate Proper(a: Arg) { a.pieces != [] && forall i :: 1 <= i < |a.pieces| ==> a.pieces[i] != "" }

  function Join(pieces: seq<string>): (s: string)
  {
    if pieces == [] then "" else pieces[0] + Join(pieces[1..])
  }

  function MemberOf(a: Arg): (m: Json.Member) { Json.Member(Trim(a.name), Json.String(Join(a.pieces))) }

  function Members(args: seq<Arg>): (ms: seq<Json.Member>)
    ensures |ms| == |args|
    ensures forall i :: 0 <= i < |ms| ==> ms[i] == MemberOf(args[i])
  {
    seq(|args|, i requires 0 <= i < |args| => MemberOf(args[i]))
  }

  function Pieces(pieces: seq<string>): (events: seq<Event>)
  {
    if pieces == [] then [] else [Event(ArgStringValue, pieces[0])] + Pieces(pieces[1..])
  }

  function ArgEvents(a: Arg): (events: seq<Event>)
  {
    [Event(ArgOpen, "")] + [Event(ArgName, a.name)] + Pieces(a.pieces) + [Event(ArgClose, "")]
  }

  function ArgsEvents(args: seq<Arg>): (events: seq<Event>)
  {
    if args == [] then [] else ArgEvents(args[0]) + ArgsEvents(args[1..])
  }

  /** A whole call; its name may come at any point among the arguments. */
  function CallEvents(name: string, before: seq<Arg>, after: seq<Arg>): (events: seq<Event>)
  {
    [Event(ToolOpen, "")] + ArgsEvents(before) + [Event(ToolName, name)] + ArgsEvents(after) + [Event(ToolClose, "")]
  }

  // ---------- running the events of a call ----------

  lemma {:induction false} RunAppend(s: State, a: seq<Event>, b: seq<Event>)
    requires Valid(s)
    ensures Run(s, a + b) == Run(Run(s, a), b)
    decreases |a|
  {
    if a == [] {
      assert a + b == b;
    } else {
      hide Step;
      assert (a + b)[1..] == a[1..] + b;
      RunAppend(Step(s, a[0]), a[1..], b);
    }
  }

  lemma {:induction false} RunOne(s: State, e: Event)
    requires Valid(s)
    ensures Run(s, [e]) == Step(s, e)
  {
    hide Step;
    assert [e][1..] == [];
  }

  lemma {:induction false} AddTwice(s: State, a: string, b: string)
    requires Valid(s) && HasTool(s)
    ensures AddArgs(AddArgs(s, a), b) == AddArgs(s, a + b)
  {
    hide WithArgs;
    WriteTwice(s, Args(s) + a, Args(s) + a + b);
    Associate(Args(s), a, b);
  }

  lemma {:induction false} WriteTwice(s: State, a: string, b: string)
    requires Valid(s) && HasTool(s)
    ensures WithArgs(WithArgs(s, a), b) == WithArgs(s, b)
  {
  }

  /** The pieces after the opening quote add their escaped text and nothing else. */
  lemma {:induction false} RunPieces(s: State, pieces: seq<string>)
    requires Valid(s) && HasTool(s) && s.quote && forall i :: 0 <= i < |pieces| ==> pieces[i] != ""
    ensures Run(s, Pieces(pieces)) == AddArgs(s, Json.Escape(Join(pieces)))
    decreases |pieces|
  {
    hide AddArgs, Json.Escape;
    if pieces == [] {
      AddNothing(s);
    } else {
      var e := Event(ArgStringValue, pieces[0]);
      RunAppend(s, [e], Pieces(pieces[1..]));
      RunOne(s, e);
      var t := AddArgs(s, Json.Escape(pieces[0]));
      ChunkText(pieces[0], true);
      AddedState(s, Json.Escape(pieces[0]));
      assert s.(quote := true) == s;
      RunPieces(t, pieces[1..]);
      AddTwice(s, Json.Escape(pieces[0]), Json.Escape(Join(pieces[1..])));
      Json.EscapeAppend(pieces[0], Join(pieces[1..]));
    }
  }

  lemma {:induction false} AddNothing(s: State)
    requires Valid(s) && HasTool(s)
    ensures AddArgs(s, "") == s && Json.Escape("") == ""
  {
    assert Args(s) + "" == Args(s);
    if Tool(s).name != "" && s.current.Last? {
      assert s.msg.calls[|s.msg.calls| - 1 := Tool(s)] == s.msg.calls;
    }
  }

  lemma {:induction false} AddedState(s: State, text: string)
    requires Valid(s) && HasTool(s)
    ensures var t := AddArgs(s, text); t.quote == s.quote && t.argCount == s.argCount && Args(t) == Args(s) + text
    ensures AddArgs(s, text).(quote := false) == AddArgs(s.(quote := false), text)
    ensures AddArgs(s, text).(quote := true) == AddArgs(s.(quote := true), text)
  {
  }

  /** A whole string value from its first piece to its close: a quoted string. */
  lemma {:induction false} RunValue(s: State, a: Arg)
    requires Valid(s) && HasTool(s) && !s.quote && Proper(a)
    ensures Run(s, Pieces(a.pieces) + [Event(ArgClose, "")]) == AddArgs(s, Json.Quote(Join(a.pieces)))
  {
    hide AddArgs, Json.Escape;
    var first, rest := a.pieces[0], a.pieces[1..];
    var e, close := Event(ArgStringValue, first), Event(ArgClose, "");
    var s' := s.(quote := true);
    assert Args(s') == Args(s);
    RunAppend(s, Pieces(a.pieces), [close]);
    RunAppend(s, [e], Pieces(rest));
    RunOne(s, e);
    ChunkText(first, false);
    FirstChunk(first);
    var head := "\"" + Json.Escape(first);
    var t := AddArgs(s', head);
    AddedState(s', head);
    RunPieces(t, rest);
    AddTwice(s', head, Json.Escape(Join(rest)));
    var text := head + Json.Escape(Join(rest));
    var u := AddArgs(s', text);
    AddedState(s', text);
    RunOne(u, close);
    AddTwice(s', text, "\"");
    AddedState(s', text + "\"");
    assert s'.(quote := false) == s;
    Json.EscapeAppend(first, Join(rest));
    Associate("\"", Json.Escape(first), Json.Escape(Join(rest)));
  }

  lemma {:induction false} FirstChunk(text: string)
    ensures StringChunk(text, false) == "\"" + Json.Escape(text)
  {
  }

  /** The text an argument adds. */
  function Entry(a: Arg, first: bool): (r: string)
  {
    (if first then "" else ",") + Json.PrintMember(MemberOf(a))
  }

  lemma {:induction false} RunArg(s: State, a: Arg)
    requires Valid(s) && HasTool(s) && !s.quote && Proper(a)
    ensures var s' := if Args(s) == "" then WithArgs(s, "{") else s;
            Run(s, ArgEvents(a)) == AddArgs(s'.(argCount := s.argCount + 1), Entry(a, s.argCount == 0))
  {
    hide AddArgs, WithArgs, Json.Quote;
    var open, name, tail := Event(ArgOpen, ""), Event(ArgName, a.name), Pieces(a.pieces) + [Event(ArgClose, "")];
    var s' := if Args(s) == "" then WithArgs(s, "{") else s;
    var c := s'.(argCount := s.argCount + 1);
    var t := NameArg(s, a.name);
    assert ArgEvents(a) == [open] + ([name] + tail);
    RunAppend(s, [open], [name] + tail);
    RunOne(s, open);
    assert s.(quote := false) == s;
    RunAppend(s, [name], tail);
    RunOne(s, name);
    WrittenQuote(s, "{");
    AddedState(c, ArgEntry(s, a.name));
    assert !t.quote;
    RunValue(t, a);
    AddTwice(c, ArgEntry(s, a.name), Json.Quote(Join(a.pieces)));
    EntryText(s, a);
  }

  lemma {:induction false} WrittenQuote(s: State, text: string)
    requires Valid(s) && HasTool(s)
    ensures WithArgs(s, text).quote == s.quote && HasTool(WithArgs(s, text))
  {
  }

  lemma {:induction false} EntryText(s: State, a: Arg)
    ensures ArgEntry(s, a.name) + Json.Quote(Join(a.pieces)) == Entry(a, s.argCount == 0)
  {
    hide Json.Quote;
    var sep := if s.argCount > 0 then "," else "";
    var key, value := Json.Quote(Trim(a.name)), Json.Quote(Join(a.pieces));
    assert Json.Print(Json.String(Join(a.pieces))) == value;
    assert sep + key + ":" + value == sep + (key + ":" + value);
  }

  // ---------- the state in the middle of a call ----------

  /** The arguments text after some arguments. */
  function Body(args: seq<Arg>): (r: string)
    ensures r != ""
  {
    "{" + Json.PrintMembers(Members(args))
  }

  function Unnamed(msg: Message, args: seq<Arg>): (s: State)
    ensures Valid(s) && HasTool(s)
  {
    State(msg, Some(NO_CALL), Pending, |args|, false, if args == [] then "" else Body(args))
  }

  function Named(msg: Message, name: string, args: seq<Arg>): (s: State)
    requires name != ""
    ensures Valid(s) && HasTool(s)
  {
    State(msg.(calls := msg.calls + [ToolCall(name, Body(args), "")]), None, Last, |args|, false, "")
  }

  lemma {:induction false} PrintMore(ms: seq<Json.Member>, m: Json.Member)
    ensures Json.PrintMembers(ms + [m]) == Json.PrintMembers(ms) +
      ((if ms == [] then "" else ",") + Json.PrintMember(m))
    decreases |ms|
  {
    hide Json.PrintMember;
    if ms == [] {
      assert ms + [m] == [m];
    } else {
      assert (ms + [m])[1..] == ms[1..] + [m];
      PrintMore(ms[1..], m);
      if |ms| == 1 { assert ms[1..] == []; }
      var head, sep := Json.PrintMember(ms[0]), if ms[1..] == [] then "" else ",";
      var rest, last := Json.PrintMembers(ms[1..]), Json.PrintMember(m);
      assert head + "," + (rest + (sep + last)) == (head + "," + rest) + (sep + last);
    }
  }

  lemma {:induction false} BodyMore(done: seq<Arg>, a: Arg)
    ensures Body(done + [a]) == Body(done) + Entry(a, done == [])
    ensures Body([]) == "{"
  {
    hide Json.PrintMember;
    PrintMore(Members(done), MemberOf(a));
    assert Members(done + [a]) == Members(done) + [MemberOf(a)];
    Associate("{", Json.PrintMembers(Members(done)), Entry(a, done == []));
  }

  lemma {:induction false} UnnamedArg(msg: Message, done: seq<Arg>, a: Arg)
    requires Proper(a)
    ensures Run(Unnamed(msg, done), ArgEvents(a)) == Unnamed(msg, done + [a])
  {
    hide Body, Entry, Run;
    RunArg(Unnamed(msg, done), a);
    BodyMore(done, a);
  }

  lemma {:induction false} NamedArg(msg: Message, name: string, done: seq<Arg>, a: Arg)
    requires Proper(a) && name != ""
    ensures Run(Named(msg, name, done), ArgEvents(a)) == Named(msg, name, done + [a])
  {
    hide Body, Entry, Run;
    RunArg(Named(msg, name, done), a);
    BodyMore(done, a);
  }

  lemma {:induction false} UnnamedArgs(msg: Message, done: seq<Arg>, args: seq<Arg>)
    requires forall i :: 0 <= i < |args| ==> Proper(args[i])
    ensures Run(Unnamed(msg, done), ArgsEvents(args)) == Unnamed(msg, done + args)
    decreases |args|
  {
    hide Unnamed, ArgEvents;
    if args == [] {
      assert done + args == done;
    } else {
      RunAppend(Unnamed(msg, done), ArgEvents(args[0]), ArgsEvents(args[1..]));
      UnnamedArg(msg, done, args[0]);
      UnnamedArgs(msg, done + [args[0]], args[1..]);
      assert done + [args[0]] + args[1..] == done + args;
    }
  }

  lemma {:induction false} NamedArgs(msg: Message, name: string, done: seq<Arg>, args: seq<Arg>)
    requires name != "" && forall i :: 0 <= i < |args| ==> Proper(args[i])
    ensures Run(Named(msg, name, done), ArgsEvents(args)) == Named(msg, name, done + args)
    decreases |args|
  {
    hide Named, ArgEvents;
    if args == [] {
      assert done + args == done;
    } else {
      RunAppend(Named(msg, name, done), ArgEvents(args[0]), ArgsEvents(args[1..]));
      NamedArg(msg, name, done, args[0]);
      NamedArgs(msg, name, done + [args[0]], args[1..]);
      assert done + [args[0]] + args[1..] == done + args;
    }
  }

  lemma {:induction false} Naming(msg: Message, name: string, done: seq<Arg>)
    requires name != ""
    ensures NameTool(Unnamed(msg, done), name) == Named(msg, name, done)
  {
    hide Json.PrintMembers;
    if done == [] { assert Body([]) == "{" by { BodyMore([], Arg("", [])); } }
  }

  // ---------- braces of printed strings ----------

  lemma {:induction false} HexPlain(n: nat)
    requires n < 16
    ensures Json.HexDigit(n) != '"' && Json.HexDigit(n) != '\\'
  {
  }

  lemma {:induction false} PlainInString(c: char, rest: string)
    requires c != '"' && c != '\\'
    ensures Quotes.DepthFrom([c] + rest, true, false) == Quotes.DepthFrom(rest, true, false)
  {
    assert ([c] + rest)[1..] == rest;
  }

  lemma {:induction false} PairInString(c: char, rest: string)
    ensures Quotes.DepthFrom(['\\', c] + rest, true, false) == Quotes.DepthFrom(rest, true, false)
  {
    assert (['\\', c] + rest)[1..] == [c] + rest && ([c] + rest)[1..] == rest;
  }

  lemma {:induction false} CharDepth(c: char, rest: string)
    ensures Quotes.DepthFrom(Json.EscapeChar(c) + rest, true, false) == Quotes.DepthFrom(rest, true, false)
  {
    hide Quotes.DepthFrom;
    var e := Json.EscapeChar(c);
    if |e| == 1 {
      PlainInString(e[0], rest);
    } else if |e| == 2 {
      assert e == ['\\', e[1]];
      PairInString(e[1], rest);
    } else {
      HexPlain(c as nat / 16);
      HexPlain(c as nat % 16);
      var h, l := Json.HexDigit(c as nat / 16), Json.HexDigit(c as nat % 16);
      assert e + rest == ['\\', 'u'] + (['0'] + (['0'] + ([h] + ([l] + rest))));
      PairInString('u', ['0'] + (['0'] + ([h] + ([l] + rest))));
      PlainInString('0', ['0'] + ([h] + ([l] + rest)));
      PlainInString('0', [h] + ([l] + rest));
      PlainInString(h, [l] + rest);
      PlainInString(l, rest);
    }
  }

  lemma {:induction false} EscapedDepth(s: string, rest: string)
    ensures Quotes.DepthFrom(Json.Escape(s) + rest, true, false) == Quotes.DepthFrom(rest, true, false)
  {
    hide Quotes.DepthFrom, Json.EscapeChar;
    if s == "" {
      assert Json.Escape(s) + rest == rest;
    } else {
      Associate(Json.EscapeChar(s[0]), Json.Escape(s[1..]), rest);
      CharDepth(s[0], Json.Escape(s[1..]) + rest);
      EscapedDepth(s[1..], rest);
    }
  }

  lemma {:induction false} OneOutside(c: char, rest: string, inString: bool)
    ensures c == '"' ==> Quotes.DepthFrom([c] + rest, inString, false) == Quotes.DepthFrom(rest, !inString, false)
    ensures c == ',' || c == ':' ==>
      Quotes.DepthFrom([c] + rest, inString, false) == Quotes.DepthFrom(rest, inString, false)
    ensures c == '{' && !inString ==>
      Quotes.DepthFrom([c] + rest, inString, false) == 1 + Quotes.DepthFrom(rest, inString, false)
  {
    assert ([c] + rest)[1..] == rest;
  }

  lemma {:induction false} QuotedDepth(s: string, rest: string)
    ensures Quotes.DepthFrom(Json.Quote(s) + rest, false, false) == Quotes.DepthFrom(rest, false, false)
  {
    hide Quotes.DepthFrom, Json.Escape;
    assert Json.Quote(s) + rest == ['"'] + (Json.Escape(s) + (['"'] + rest));
    OneOutside('"', Json.Escape(s) + (['"'] + rest), false);
    EscapedDepth(s, ['"'] + rest);
    OneOutside('"', rest, true);
  }

  lemma {:induction false} MemberDepth(a: Arg, rest: string)
    ensures Quotes.DepthFrom(Json.PrintMember(MemberOf(a)) + rest, false, false) == Quotes.DepthFrom(rest, false, false)
  {
    hide Quotes.DepthFrom, Json.Quote;
    var m := MemberOf(a);
    assert Json.Print(m.value) == Json.Quote(Join(a.pieces));
    assert Json.PrintMember(m) + rest == Json.Quote(m.key) + ([':'] + (Json.Quote(Join(a.pieces)) + rest));
    QuotedDepth(m.key, [':'] + (Json.Quote(Join(a.pieces)) + rest));
    OneOutside(':', Json.Quote(Join(a.pieces)) + rest, false);
    QuotedDepth(Join(a.pieces), rest);
  }

  lemma {:induction false} MembersDepth(args: seq<Arg>, rest: string)
    ensures Quotes.DepthFrom(Json.PrintMembers(Members(args)) + rest, false, false) ==
      Quotes.DepthFrom(rest, false, false)
  {
    hide Quotes.DepthFrom, Json.PrintMember, MemberOf;
    if args == [] {
      assert Json.PrintMembers(Members(args)) + rest == rest;
    } else {
      assert Members(args)[1..] == Members(args[1..]);
      var head, tail := Json.PrintMember(MemberOf(args[0])), Json.PrintMembers(Members(args[1..]));
      MembersDepth(args[1..], rest);
      if |args| == 1 {
        MemberDepth(args[0], rest);
      } else {
        assert head + "," + tail + rest == head + ([','] + (tail + rest));
        MemberDepth(args[0], [','] + (tail + rest));
        OneOutside(',', tail + rest, false);
      }
    }
  }

  lemma {:induction false} BodyDepth(args: seq<Arg>)
    ensures Quotes.BraceDepth(Body(args)) == 1
    ensures Quotes.BraceDepth(Body(args) + "}") == 0
    ensures Body(args) + Braces(1) == Body(args) + "}" == Json.Print(Json.Object(Members(args)))
  {
    hide Quotes.DepthFrom;
    var text := Json.PrintMembers(Members(args));
    OneOutside('{', text, false);
    assert text + "" == text;
    MembersDepth(args, "");
    assert Body(args) + "}" == ['{'] + (text + "}");
    OneOutside('{', text + "}", false);
    MembersDepth(args, "}");
    EndDepth();
    assert Braces(1) == "}" + Braces(0) == "}";
  }

  lemma {:induction false} EndDepth()
    ensures Quotes.DepthFrom("", false, false) == 0 && Quotes.DepthFrom("}", false, false) == -1
  {
    assert "}"[1..] == "";
  }

  // ---------- the finished call ----------

  function Finished(msg: Message, name: string, args: seq<Arg>): (r: Message)
  {
    msg.(calls := msg.calls + [ToolCall(name, Json.Print(Json.Object(Members(args))), "")])
  }

  lemma {:induction false} Closing(msg: Message, name: string, args: seq<Arg>)
    requires name != ""
    ensures CloseTool(Named(msg, name, args)).msg == Finished(msg, name, args)
  {
    hide Body, Braces, Quotes.BraceDepth, Json.Print;
    var s := Named(msg, name, args);
    BodyDepth(args);
    assert FlushBuffer(s) == s && EndQuote(s) == s;
  }

  lemma {:induction false} RunParts(s: State, a: seq<Event>, b: seq<Event>, c: seq<Event>, d: seq<Event>, e: seq<Event>)
    requires Valid(s)
    ensures Run(s, a + b + c + d + e) == Run(Run(Run(Run(Run(s, a), b), c), d), e)
  {
    hide Run;
    RunAppend(s, a + b + c + d, e);
    RunAppend(s, a + b + c, d);
    RunAppend(s, a + b, c);
    RunAppend(s, a, b);
  }

  lemma {:induction false} OpenStep(s: State)
    requires Valid(s)
    ensures Run(s, [Event(ToolOpen, "")]) == Unnamed(s.msg, [])
  {
    RunOne(s, Event(ToolOpen, ""));
  }

  lemma {:induction false} NameStep(msg: Message, name: string, done: seq<Arg>)
    requires TrimTrailing(name) != ""
    ensures Run(Unnamed(msg, done), [Event(ToolName, name)]) == Named(msg, TrimTrailing(name), done)
  {
    hide NameTool, Named, Body;
    RunOne(Unnamed(msg, done), Event(ToolName, name));
    Naming(msg, TrimTrailing(name), done);
  }

  lemma {:induction false} CloseStep(msg: Message, name: string, done: seq<Arg>)
    requires name != ""
    ensures Run(Named(msg, name, done), [Event(ToolClose, "")]).msg == Finished(msg, name, done)
  {
    hide CloseTool, Finished, Named;
    RunOne(Named(msg, name, done), Event(ToolClose, ""));
    Closing(msg, name, done);
  }

  lemma {:induction false} RunCall(s: State, name: string, before: seq<Arg>, after: seq<Arg>)
    requires Valid(s) && TrimTrailing(name) != ""
    requires forall i :: 0 <= i < |before| ==> Proper(before[i])
    requires forall i :: 0 <= i < |after| ==> Proper(after[i])
    ensures Run(s, CallEvents(name, before, after)).msg == Finished(s.msg, TrimTrailing(name), before + after)
  {
    hide Finished, ArgsEvents, TrimTrailing, Run, Unnamed, Named, Proper;
    var n := TrimTrailing(name);
    RunParts(s, [Event(ToolOpen, "")], ArgsEvents(before), [Event(ToolName, name)], ArgsEvents(after),
      [Event(ToolClose, "")]);
    OpenStep(s);
    UnnamedArgs(s.msg, [], before);
    assert [] + before == before;
    NameStep(s.msg, name, before);
    NamedArgs(s.msg, n, before, after);
    CloseStep(s.msg, n, before + after);
  }

  // ---------- events that do not touch names and arguments ----------

  /** Content and reasoning between the events of a call, its id, and the span of its tagged arguments. */
  predicate Quiet(e: Event)
  {
    e.tag in {Reasoning, Content, ToolId, Other} || (e.tag.ToolArgs? && !IsObjectText(e.text))
  }

  /** An event without the text of a marker: what opens and closes calls and arguments is matched literally, and the
      mapper looks at the tag alone. */
  function Unmarked(e: Event): (r: Event)
  {
    if e.tag in {ToolOpen, ToolClose, ArgOpen, ArgClose} then Event(e.tag, "") else e
  }

  lemma {:induction false} UnmarkedStep(s: State, e: Event)
    requires Valid(s)
    ensures Step(s, Unmarked(e)) == Step(s, e)
    ensures Quiet(Unmarked(e)) <==> Quiet(e)
  {
    hide NameTool, NameArg, CloseTool, CloseQuote, AddString, WithArgs, AddArgs, WithTool, Quotes.NormalizeAll,
      IsObjectText, IdText, TrimTrailing;
  }

  /** The events that matter to names and arguments, whatever the markers were. */
  function Loud(events: seq<Event>): (r: seq<Event>)
  {
    if events == [] then []
    else if Quiet(events[0]) then Loud(events[1..])
    else [Unmarked(events[0])] + Loud(events[1..])
  }

  predicate CallAlike(a: ToolCall, b: ToolCall) { a.name == b.name && a.arguments == b.arguments }

  /** Two states that differ in texts and ids only. */
  predicate Alike(s: State, t: State)
  {
    s.current == t.current && s.argCount == t.argCount && s.quote == t.quote && s.buffer == t.buffer &&
    (s.pending.Some? <==> t.pending.Some?) && (s.pending.Some? ==> CallAlike(s.pending.value, t.pending.value)) &&
    |s.msg.calls| == |t.msg.calls| &&
    forall i :: 0 <= i < |s.msg.calls| ==> CallAlike(s.msg.calls[i], t.msg.calls[i])
  }

  lemma {:induction false} QuietStep(s: State, t: State, e: Event)
    requires Valid(s) && Valid(t) && Alike(s, t) && Quiet(e)
    ensures Alike(Step(s, e), t)
  {
    hide IdText, IsObjectText;
  }

  lemma {:induction false} AlikeTool(s: State, t: State, a: ToolCall, b: ToolCall)
    requires Valid(s) && Valid(t) && Alike(s, t) && HasTool(s) && CallAlike(a, b)
    ensures HasTool(t) && CallAlike(Tool(s), Tool(t)) && Alike(WithTool(s, a), WithTool(t, b))
  {
  }

  lemma {:induction false} AlikeArgs(s: State, t: State, text: string)
    requires Valid(s) && Valid(t) && Alike(s, t) && HasTool(s)
    ensures HasTool(t) && Args(s) == Args(t) && Alike(WithArgs(s, text), WithArgs(t, text))
  {
    hide WithTool;
    AlikeTool(s, t, Tool(s).(arguments := text), Tool(t).(arguments := text));
  }

  lemma {:induction false} AlikeAdd(s: State, t: State, text: string)
    requires Valid(s) && Valid(t) && Alike(s, t) && HasTool(s)
    ensures HasTool(t) && Alike(AddArgs(s, text), AddArgs(t, text))
  {
    AlikeArgs(s, t, Args(s) + text);
  }

  lemma {:induction false} AlikeName(s: State, t: State, name: string)
    requires Valid(s) && Valid(t) && Alike(s, t) && HasTool(s)
    ensures HasTool(t) && Alike(NameTool(s, name), NameTool(t, name))
  {
  }

  lemma {:induction false} AlikeEntry(s: State, t: State, name: string)
    requires Valid(s) && Valid(t) && Alike(s, t) && HasTool(s)
    ensures HasTool(t) && Alike(NameArg(s, name), NameArg(t, name))
  {
    hide WithArgs, AddArgs, ArgEntry;
    AlikeArgs(s, t, "{");
    var s', t' := if Args(s) == "" then WithArgs(s, "{") else s, if Args(t) == "" then WithArgs(t, "{") else t;
    var entry := ArgEntry(s, name);
    assert ArgEntry(t, name) == entry by { SameEntry(s, t, name); }
    AlikeAdd(s'.(argCount := s.argCount + 1), t'.(argCount := t.argCount + 1), entry);
  }

  lemma {:induction false} SameEntry(s: State, t: State, name: string)
    requires s.argCount == t.argCount
    ensures ArgEntry(s, name) == ArgEntry(t, name)
  {
  }

  lemma {:induction false} AlikeFlush(s: State, t: State)
    requires Valid(s) && Valid(t) && Alike(s, t) && HasTool(s)
    ensures HasTool(t) && Alike(FlushBuffer(s), FlushBuffer(t)) && Alike(EndQuote(s), EndQuote(t))
  {
    hide WithTool, Alike;
    AlikeParts(s, t);
    AlikeTool(s, t, Tool(s).(arguments := s.buffer), Tool(t).(arguments := t.buffer));
    AlikeTool(s, t, Tool(s).(arguments := Tool(s).arguments + "\""), Tool(t).(arguments := Tool(t).arguments + "\""));
    AlikeFields(WithTool(s, Tool(s).(arguments := s.buffer)), WithTool(t, Tool(t).(arguments := t.buffer)));
    AlikeFields(WithTool(s, Tool(s).(arguments := Tool(s).arguments + "\"")),
                WithTool(t, Tool(t).(arguments := Tool(t).arguments + "\"")));
  }

  lemma {:induction false} AlikeParts(s: State, t: State)
    requires Valid(s) && Valid(t) && Alike(s, t) && HasTool(s)
    ensures HasTool(t) && s.buffer == t.buffer && s.quote == t.quote && CallAlike(Tool(s), Tool(t))
  {
  }

  lemma {:induction false} AlikeFields(s: State, t: State)
    requires Alike(s, t)
    ensures Alike(s.(buffer := ""), t.(buffer := "")) && Alike(s.(quote := false), t.(quote := false))
    ensures Alike(s.(quote := true), t.(quote := true))
  {
  }

  lemma {:induction false} AlikeClose(s: State, t: State)
    requires Valid(s) && Valid(t) && Alike(s, t) && HasTool(s)
    ensures HasTool(t) && Alike(CloseTool(s), CloseTool(t))
  {
    hide FlushBuffer, EndQuote, Alike, WithTool, Braces, Quotes.BraceDepth, Settle;
    AlikeFlush(s, t);
    var s1, t1 := FlushBuffer(s), FlushBuffer(t);
    AlikeFlush(s1, t1);
    var s2, t2 := EndQuote(s1), EndQuote(t1);
    AlikeParts(s2, t2);
    var text := Tool(s2).arguments + Braces(Quotes.BraceDepth(Tool(s2).arguments));
    AlikeTool(s2, t2, Tool(s2).(arguments := text), Tool(t2).(arguments := text));
    AlikeSettle(EndBraces(s2), EndBraces(t2));
  }

  lemma {:induction false} AlikeSettle(s: State, t: State)
    requires Valid(s) && Valid(t) && Alike(s, t)
    ensures Alike(Settle(s), Settle(t))
  {
  }

  lemma {:induction false} LoudStep(s: State, t: State, e: Event)
    requires Valid(s) && Valid(t) && Alike(s, t) && !Quiet(e)
    ensures Alike(Step(s, e), Step(t, e))
  {
    hide NameTool, NameArg, CloseTool, WithArgs, AddArgs, StringChunk, Quotes.NormalizeAll, IsObjectText, TrimTrailing;
    AlikeFields(s, t);
    if HasTool(s) {
      AlikeParts(s, t);
      hide Alike;
      match e.tag
      case ToolName => AlikeName(s, t, TrimTrailing(e.text));
      case ToolArgs => AlikeArgs(s, t, TrimTrailing(e.text));
      case ToolClose => AlikeClose(s, t);
      case ArgName => AlikeEntry(s, t, e.text);
      case ArgValue => AlikeAdd(s, t, Quotes.NormalizeAll(e.text));
      case ArgStringValue => AlikeAdd(s.(quote := true), t.(quote := true), StringChunk(e.text, s.quote));
      case ArgClose => AlikeAdd(s, t, "\""); AlikeFields(AddArgs(s, "\""), AddArgs(t, "\""));
      case ToolOpen => AlikeOpen(s, t);
      case _ =>
    }
  }

  lemma {:induction false} AlikeOpen(s: State, t: State)
    requires Alike(s, t)
    ensures Alike(State(s.msg, Some(NO_CALL), Pending, 0, false, ""),
      State(t.msg, Some(NO_CALL), Pending, 0, false, ""))
  {
  }

  lemma {:induction false} RunLoud(s: State, t: State, events: seq<Event>)
    requires Valid(s) && Valid(t) && Alike(s, t)
    ensures Alike(Run(s, events), Run(t, Loud(events)))
    decreases |events|
  {
    if events != [] {
      hide Step, Alike, Quiet, Unmarked;
      var e := events[0];
      if Quiet(e) {
        QuietStep(s, t, e);
        RunLoud(Step(s, e), t, events[1..]);
      } else {
        LoudStep(s, t, e);
        UnmarkedStep(t, e);
        RunLoud(Step(s, e), Step(t, e), events[1..]);
        RunAppend(t, [Unmarked(e)], Loud(events[1..]));
        RunOne(t, Unmarked(e));
      }
    }
  }

  /** After any run of a whole call, from any state, with any markers and anything quiet in between: the call is the
      last one, has the trimmed name, and its arguments read back as the trimmed argument names and the values in
      order, with every brace closed. */
  lemma {:induction false} CallReadsBack(s: State, events: seq<Event>, name: string, before: seq<Arg>, after: seq<Arg>)
    requires Valid(s) && Loud(events) == CallEvents(name, before, after) && TrimTrailing(name) != ""
    requires forall i :: 0 <= i < |before| ==> Proper(before[i])
    requires forall i :: 0 <= i < |after| ==> Proper(after[i])
    ensures var calls := Run(s, events).msg.calls;
            |calls| == |s.msg.calls| + 1 &&
            calls[|calls| - 1].name == TrimTrailing(name) &&
            Json.Parse(calls[|calls| - 1].arguments) == Some(Json.Object(Members(before + after))) &&
            Quotes.BraceDepth(calls[|calls| - 1].arguments) == 0
  {
    hide Loud, CallEvents, Run, TrimTrailing, Json.Print, Json.Parse, Quotes.BraceDepth, Body;
    var args := before + after;
    RunLoud(s, s, events);
    RunCall(s, name, before, after);
    BodyDepth(args);
    StringsPrintable(Members(args));
    Json.ParsePrinted(Json.Object(Members(args)));
  }

  lemma {:induction false} StringsPrintable(ms: seq<Json.Member>)
    requires forall i :: 0 <= i < |ms| ==> ms[i].value.String?
    ensures Json.Printable(Json.Object(ms))
  {
  }

  /** The events of a call with one string argument, as the tagged format gives them: `open`, `close` and the
      argument's own markers are the matched literals, and `span` is the text of all arguments. */
  function TaggedCall(open: string, name: string, span: string, argOpen: string, key: string, value: string,
                      argClose: string, close: string): (events: seq<Event>)
  {
    [Event(ToolOpen, open), Event(ToolName, name), Event(ToolArgs, span), Event(Other, span), Event(ArgOpen, argOpen),
     Event(ArgName, key), Event(ArgStringValue, value), Event(ArgClose, argClose), Event(ToolClose, close)]
  }

  /** Such calls are covered, whatever their markers are. */
  lemma {:induction false} TaggedCallReadsBack(s: State, open: string, name: string, span: string, argOpen: string,
                                               key: string, value: string, argClose: string, close: string)
    requires Valid(s) && TrimTrailing(name) != "" && !IsObjectText(span)
    ensures var calls := Run(s, TaggedCall(open, name, span, argOpen, key, value, argClose, close)).msg.calls;
            |calls| == |s.msg.calls| + 1 && calls[|calls| - 1].name == TrimTrailing(name) &&
            Json.Parse(calls[|calls| - 1].arguments) ==
            Some(Json.Object([Json.Member(Trim(key), Json.String(value))]))
  {
    hide Run, TrimTrailing, Json.Parse, Quotes.BraceDepth, Proper, Members;
    var events := TaggedCall(open, name, span, argOpen, key, value, argClose, close);
    var arg := Arg(key, [value]);
    LoudTagged(open, name, span, argOpen, key, value, argClose, close);
    OneArg(key, value);
    CallReadsBack(s, events, name, [], [arg]);
    assert [] + [arg] == [arg];
  }

  lemma {:induction false} OneArg(key: string, value: string)
    ensures Proper(Arg(key, [value]))
    ensures Members([Arg(key, [value])]) == [Json.Member(Trim(key), Json.String(value))]
  {
    assert Join([value]) == value + Join([value][1..]) == value;
  }

  lemma {:induction false} LoudTagged(open: string, name: string, span: string, argOpen: string, key: string,
                                      value: string, argClose: string, close: string)
    requires !IsObjectText(span)
    ensures Loud(TaggedCall(open, name, span, argOpen, key, value, argClose, close)) ==
            CallEvents(name, [], [Arg(key, [value])])
  {
    hide IsObjectText;
    var args := [Event(ArgOpen, ""), Event(ArgName, key), Event(ArgStringValue, value), Event(ArgClose, "")];
    var tail := [Event(ArgOpen, argOpen), Event(ArgName, key), Event(ArgStringValue, value), Event(ArgClose, argClose),
                 Event(ToolClose, close)];
    var head := [Event(ToolOpen, open), Event(ToolName, name), Event(ToolArgs, span), Event(Other, span)];
    assert TaggedCall(open, name, span, argOpen, key, value, argClose, close) == head + tail;
    LoudAppend(head, tail);
    LoudHead(open, name, span);
    LoudTail(argOpen, key, value, argClose, close);
    assert ArgsEvents([Arg(key, [value])]) == args by { OneArgEvents(key, value); }
  }

  lemma {:induction false} OneArgEvents(key: string, value: string)
    ensures ArgsEvents([Arg(key, [value])]) ==
            [Event(ArgOpen, ""), Event(ArgName, key), Event(ArgStringValue, value), Event(ArgClose, "")]
  {
    assert [Arg(key, [value])][1..] == [] && [value][1..] == [];
    assert Pieces([value]) == [Event(ArgStringValue, value)];
  }

  lemma {:induction false} LoudAppend(a: seq<Event>, b: seq<Event>)
    ensures Loud(a + b) == Loud(a) + Loud(b)
  {
    hide Quiet, Unmarked;
    if a == [] {
      assert a + b == b;
    } else {
      assert (a + b)[1..] == a[1..] + b;
      LoudAppend(a[1..], b);
    }
  }

  lemma {:induction false} LoudOne(e: Event, rest: seq<Event>)
    ensures Loud([e] + rest) == if Quiet(e) then Loud(rest) else [Unmarked(e)] + Loud(rest)
  {
    assert ([e] + rest)[1..] == rest;
  }

  lemma {:induction false} LoudHead(open: string, name: string, span: string)
    requires !IsObjectText(span)
    ensures Loud([Event(ToolOpen, open), Event(ToolName, name), Event(ToolArgs, span), Event(Other, span)]) ==
            [Event(ToolOpen, ""), Event(ToolName, name)]
  {
    hide Loud, IsObjectText;
    NoLoud();
    var e3, e2, e1, e0 := Event(Other, span), Event(ToolArgs, span), Event(ToolName, name), Event(ToolOpen, open);
    LoudOne(e3, []);
    LoudOne(e2, [e3] + []);
    LoudOne(e1, [e2] + ([e3] + []));
    LoudOne(e0, [e1] + ([e2] + ([e3] + [])));
    assert [e0] + ([e1] + ([e2] + ([e3] + []))) == [e0, e1, e2, e3];
  }

  lemma {:induction false} NoLoud()
    ensures Loud([]) == []
  {
  }

  lemma {:induction false} LoudTail(argOpen: string, key: string, value: string, argClose: string, close: string)
    ensures Loud([Event(ArgOpen, argOpen), Event(ArgName, key), Event(ArgStringValue, value), Event(ArgClose, argClose),
                  Event(ToolClose, close)]) ==
            [Event(ArgOpen, ""), Event(ArgName, key), Event(ArgStringValue, value), Event(ArgClose, ""),
              Event(ToolClose, "")]
  {
    hide Loud;
    NoLoud();
    var e4, e3, e2, e1 :=
      Event(ToolClose, close), Event(ArgClose, argClose), Event(ArgStringValue, value), Event(ArgName, key);
    var e0 := Event(ArgOpen, argOpen);
    LoudOne(e4, []);
    LoudOne(e3, [e4] + []);
    LoudOne(e2, [e3] + ([e4] + []));
    LoudOne(e1, [e2] + ([e3] + ([e4] + [])));
    LoudOne(e0, [e1] + ([e2] + ([e3] + ([e4] + []))));
    assert [e0] + ([e1] + ([e2] + ([e3] + ([e4] + [])))) == [e0, e1, e2, e3, e4];
  }
}
