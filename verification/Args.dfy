/** The two loops over the command line: one calls option handlers, the other fills a map. They are written out
    twice and have to agree. */
module Args {
  import opened Wrappers

  /** An option as one of the `common_arg` constructors makes it: without a value, with a positive and a negative
      form, with one value (text or integer), or with two. */
  datatype Opt =
    | VoidOpt(args: seq<string>)
    | FlagOpt(args: seq<string>, neg: seq<string>)
    | ValueOpt(args: seq<string>, isInt: bool)
    | PairOpt(args: seq<string>)

  function NegNames(o: Opt): (names: seq<string>) { if o.FlagOpt? then o.neg else [] }

  /** Whether the option has a hint for its first value, and for a second one. */
  predicate HasHint(o: Opt) { o.ValueOpt? || o.PairOpt? }

  predicate HasHint2(o: Opt) { o.PairOpt? }

  /** How a handler is called. */
  datatype Call =
    | VoidCall
    | FlagCall(positive: bool)
    | ValueCall(text: string)
    | PairCall(first: string, second: string)

  datatype Rejection = UnknownArgument(at: nat) | MissingValue(at: nat) | HandlerFailed(at: nat) | TwoValues(at: nat)

  type Outcome<+T> = Result<T, Rejection>

  // ---------- names ----------

  /** Underscores become dashes in arguments that start with two dashes. */
  function Normal(arg: string): (r: string)
    ensures |r| == |arg|
  {
    if "--" <= arg then seq(|arg|, i requires 0 <= i < |arg| => if arg[i] == '_' then '-' else arg[i]) else arg
  }

  method Normalize(arg: string) returns (r: string)
    ensures r == Normal(arg)
  {
    r := arg;
    if |arg| >= 2 && arg[..2] == "--" {
      assert "--" <= arg;
      for i := 0 to |arg|
        invariant |r| == |arg|
        invariant forall k :: 0 <= k < i ==> r[k] == if arg[k] == '_' then '-' else arg[k]
        invariant forall k :: i <= k < |arg| ==> r[k] == arg[k]
      {
        if r[i] == '_' { r := r[i := '-']; }
      }
    } else {
      assert !("--" <= arg);
    }
  }

  /** `names` registered for `value`. */
  function Registered<T>(m: map<string, T>, names: seq<string>, value: T): (r: map<string, T>)
    ensures forall name :: name in r <==> name in m || name in names
    ensures forall name :: name in r ==> r[name] == if name in names then value else m[name]
  {
    m + (map name | name in names :: value)
  }

  /** The names of the first `n` options: a name registered again belongs to the later registration. */
  function SignedIndex(options: seq<Opt>, n: nat): (m: map<string, (nat, bool)>)
    requires n <= |options|
    ensures forall name :: name in m ==> m[name].0 < n
  {
    if n == 0 then map[]
    else
      var o := options[n - 1];
      Registered(Registered(SignedIndex(options, n - 1), o.args, (n - 1, true)), NegNames(o), (n - 1, false))
  }

  function PlainIndex(options: seq<Opt>, n: nat): (m: map<string, nat>)
    requires n <= |options|
    ensures forall name :: name in m ==> m[name] < n
  {
    if n == 0 then map[]
    else
      var o := options[n - 1];
      Registered(Registered(PlainIndex(options, n - 1), o.args, n - 1), NegNames(o), n - 1)
  }

  method Register<T>(m: map<string, T>, names: seq<string>, value: T) returns (r: map<string, T>)
    ensures r == Registered(m, names, value)
  {
    r := m;
    for i := 0 to |names|
      invariant r == Registered(m, names[..i], value)
    {
      assert names[..i + 1] == names[..i] + [names[i]];
      r := r[names[i] := value];
    }
    assert names[..|names|] == names;
  }

  method BuildSignedIndex(options: seq<Opt>) returns (m: map<string, (nat, bool)>)
    ensures m == SignedIndex(options, |options|)
  {
    hide Registered;
    m := map[];
    for n := 0 to |options|
      invariant m == SignedIndex(options, n)
    {
      m := Register(m, options[n].args, (n, true));
      m := Register(m, NegNames(options[n]), (n, false));
    }
  }

  method BuildPlainIndex(options: seq<Opt>) returns (m: map<string, nat>)
    ensures m == PlainIndex(options, |options|)
  {
    hide Registered;
    m := map[];
    for n := 0 to |options|
      invariant m == PlainIndex(options, n)
    {
      m := Register(m, options[n].args, n);
      m := Register(m, NegNames(options[n]), n);
    }
  }

  /** Both indexes resolve a name to the same option, and the sign of the first is what the other loop works out by
      searching the negative names of that option. */
  lemma {:induction false} IndexesAgree(options: seq<Opt>, n: nat, name: string)
    requires n <= |options|
    ensures var s, p := SignedIndex(options, n), PlainIndex(options, n);
            (name in s <==> name in p) &&
            (name in s ==> s[name].0 == p[name] < n && (s[name].1 <==> name !in NegNames(options[p[name]])) &&
                           (name in options[p[name]].args || name in NegNames(options[p[name]])))
  {
    hide Registered, NegNames;
    if n > 0 { IndexesAgree(options, n - 1, name); }
  }

  // ---------- the loop that calls handlers (arg.cpp, lines 636-698) ----------

  /** The handler calls from argument `i` on. `works` says which calls return, conversions included; the others
      throw. */
  function ParseFrom(options: seq<Opt>, argv: seq<string>, i: nat,
          works: (nat, Call) -> bool): (r: Outcome<seq<(nat, Call)>>)
    decreases |argv| - i
  {
    if i >= |argv| then Ok([])
    else
      var arg, index := Normal(argv[i]), SignedIndex(options, |options|);
      if arg !in index then Err(UnknownArgument(i))
      else
        var (o, positive) := index[arg];
        match options[o]
        case VoidOpt(_) => Called(o, VoidCall, i, works, ParseFrom(options, argv, i + 1, works))
        case FlagOpt(_, _) => Called(o, FlagCall(positive), i, works, ParseFrom(options, argv, i + 1, works))
        case ValueOpt(_, _) =>
          if i + 1 >= |argv| then Err(MissingValue(i))
          else Called(o, ValueCall(argv[i + 1]), i, works, ParseFrom(options, argv, i + 2, works))
        case PairOpt(_) =>
          if i + 2 >= |argv| then Err(MissingValue(i))
          else Called(o, PairCall(argv[i + 1], argv[i + 2]), i, works, ParseFrom(options, argv, i + 3, works))
  }

  function Called(o: nat, call: Call, i: nat,
          works: (nat, Call) -> bool, rest: Outcome<seq<(nat, Call)>>): (r: Outcome<seq<(nat, Call)>>)
  {
    if !works(o, call) then Err(HandlerFailed(i)) else if rest.Err? then rest else Ok([(o, call)] + rest.value)
  }

  lemma {:induction false} CalledWorks(o: nat, call: Call, i: nat,
          works: (nat, Call) -> bool, rest: Outcome<seq<(nat, Call)>>)
    ensures works(o, call) ==> Called(o, call, i, works, rest) == Prepend([(o, call)], rest)
  {
  }

  /** `parse_cli_args`: the calls in their order, or why the command line is rejected. */
  method ParseCliArgs(options: seq<Opt>, argv: seq<string>,
          works: (nat, Call) -> bool) returns (r: Outcome<seq<(nat, Call)>>)
    ensures r == ParseFrom(options, argv, 1, works)
  {
    hide SignedIndex, Normal, ParseFrom, Prepend;
    var argToOptions := BuildSignedIndex(options);
    var calls: seq<(nat, Call)> := [];
    var i := 1;
    PrependNothing(ParseFrom(options, argv, 1, works));
    while i < |argv|
      invariant 1 <= i
      invariant Prepend(calls, ParseFrom(options, argv, i, works)) == ParseFrom(options, argv, 1, works)
      decreases |argv| - i
    {
      var at := i;
      ParseStep(options, argv, at, works);
      if ParseFrom(options, argv, at, works).Err? { PrependFailed(calls, ParseFrom(options, argv, at, works).error); }
      var arg := Normalize(argv[i]);
      if arg !in argToOptions { return Err(UnknownArgument(i)); }
      var (o, isPositive) := argToOptions[arg];
      IndexesAgree(options, |options|, arg);
      var opt := options[o];
      var call := VoidCall;
      if opt.VoidOpt? {
        call := VoidCall;
      } else if opt.FlagOpt? {
        call := FlagCall(isPositive);
      } else {
        if i + 1 >= |argv| { return Err(MissingValue(at)); }
        i := i + 1;
        var val := argv[i];
        if opt.ValueOpt? {
          call := ValueCall(val);
        } else {
          if i + 1 >= |argv| { return Err(MissingValue(at)); }
          i := i + 1;
          call := PairCall(val, argv[i]);
        }
      }
      if !works(o, call) { return Err(HandlerFailed(at)); }
      CalledWorks(o, call, at, works, ParseFrom(options, argv, i + 1, works));
      PrependMore(calls, (o, call), ParseFrom(options, argv, i + 1, works));
      calls := calls + [(o, call)];
      i := i + 1;
    }
    ParseEnd(options, argv, i, works);
    PrependToNothing(calls);
    r := Ok(calls);
  }

  function Prepend<T>(done: seq<T>, rest: Outcome<seq<T>>): (r: Outcome<seq<T>>)
  {
    if rest.Err? then rest else Ok(done + rest.value)
  }

  lemma {:induction false} PrependNothing<T>(rest: Outcome<seq<T>>)
    ensures Prepend([], rest) == rest
  {
    if rest.Ok? { assert [] + rest.value == rest.value; }
  }

  lemma {:induction false} PrependFailed<T>(done: seq<T>, e: Rejection)
    ensures Prepend(done, Err(e)) == Err(e)
  {
  }

  lemma {:induction false} PrependToNothing<T>(done: seq<T>)
    ensures Prepend(done, Ok([])) == Ok(done)
  {
    assert done + [] == done;
  }

  lemma {:induction false} PrependMore<T>(done: seq<T>, x: T, rest: Outcome<seq<T>>)
    ensures Prepend(done + [x], rest) == Prepend(done, Prepend([x], rest))
  {
    if rest.Ok? { assert done + [x] + rest.value == done + ([x] + rest.value); }
  }

  lemma {:induction false} ParseEnd(options: seq<Opt>, argv: seq<string>, i: nat, works: (nat, Call) -> bool)
    requires i >= |argv|
    ensures ParseFrom(options, argv, i, works) == Ok([])
  {
  }

  /** One turn of the loop. */
  lemma {:induction false} ParseStep(options: seq<Opt>, argv: seq<string>, i: nat, works: (nat, Call) -> bool)
    requires i < |argv|
    ensures var arg, index := Normal(argv[i]), SignedIndex(options, |options|);
            ParseFrom(options, argv, i, works) ==
            if arg !in index then Err(UnknownArgument(i))
            else
              var (o, positive) := index[arg];
              if options[o].VoidOpt? then Called(o, VoidCall, i, works, ParseFrom(options, argv, i + 1, works))
              else if options[o].FlagOpt? then
                Called(o, FlagCall(positive), i, works, ParseFrom(options, argv, i + 1, works))
              else if i + 1 >= |argv| || (options[o].PairOpt? && i + 2 >= |argv|) then Err(MissingValue(i))
              else if options[o].ValueOpt? then
                Called(o, ValueCall(argv[i + 1]), i, works, ParseFrom(options, argv, i + 2, works))
              else Called(o, PairCall(argv[i + 1], argv[i + 2]), i, works, ParseFrom(options, argv, i + 3, works))
  {
    hide SignedIndex, Normal, Called;
    var arg := Normal(argv[i]);
    IndexesAgree(options, |options|, arg);
  }

  // ---------- the loop that fills a map (arg.cpp, lines 990-1026) ----------

  /** The value of an option and the place of the next argument. */
  function ValueAt(opt: Opt, arg: string, argv: seq<string>, i: nat): (r: Outcome<(string, nat)>)
    ensures r.Ok? ==> i < r.value.1 <= i + 2
  {
    if HasHint(opt) && i + 1 >= |argv| then Err(MissingValue(i))
    else if HasHint2(opt) then Err(TwoValues(i))
    else if HasHint(opt) then Ok((argv[i + 1], i + 2))
    else Ok((if arg in NegNames(opt) then "0" else "1", i + 1))
  }

  method TakeValue(opt: Opt, arg: string, argv: seq<string>, i: nat) returns (r: Outcome<(string, nat)>)
    ensures r == ValueAt(opt, arg, argv, i)
  {
    var val, last := "", i;
    if !HasHint(opt) && !HasHint2(opt) {
      var isNeg := arg in NegNames(opt);
      val := if isNeg then "0" else "1";
    }
    if HasHint(opt) {
      if last + 1 >= |argv| { return Err(MissingValue(i)); }
      last := last + 1;
      val := argv[last];
    }
    if HasHint2(opt) { return Err(TwoValues(i)); }
    r := Ok((val, last + 1));
  }

  /** The options and values from argument `i` on. */
  function TraceFrom(options: seq<Opt>, argv: seq<string>, i: nat): (r: Outcome<seq<(nat, string)>>)
    decreases |argv| - i
  {
    if i >= |argv| then Ok([])
    else
      var arg, index := Normal(argv[i]), PlainIndex(options, |options|);
      if arg !in index then Err(UnknownArgument(i))
      else
        var o := index[arg];
        var v := ValueAt(options[o], arg, argv, i);
        if v.Err? then Err(v.error) else Prepend([(o, v.value.0)], TraceFrom(options, argv, v.value.1))
  }

  /** The key of an option in the map is its first name. */
  function Key(o: Opt): (k: string) { if o.args == [] then "" else o.args[0] }

  function Filled(options: seq<Opt>, m: map<string, string>, trace: seq<(nat, string)>): (r: map<string, string>)
    requires Inside(options, trace)
  {
    if trace == [] then m
    else
      var last := trace[|trace| - 1];
      Filled(options, m, trace[..|trace| - 1])[Key(options[last.0]) := last.1]
  }

  predicate Inside(options: seq<Opt>, trace: seq<(nat, string)>)
  {
    forall k :: 0 <= k < |trace| ==> trace[k].0 < |options|
  }

  /** `common_params_to_map`. When it throws, the map keeps what was resolved before. */
  method ParamsToMap(options: seq<Opt>, argv: seq<string>, start: map<string, string>)
      returns (r: Outcome<()>, outMap: map<string, string>, ghost trace: seq<(nat, string)>)
    ensures Inside(options, trace) && outMap == Filled(options, start, trace)
    ensures r == var t := TraceFrom(options, argv, 1); if t.Err? then Err(t.error) else Ok(())
    ensures r.Ok? ==> TraceFrom(options, argv, 1) == Ok(trace)
  {
    hide PlainIndex, Normal, TraceFrom, Filled, Prepend, Inside, Key, ValueAt;
    var argToOptions := BuildPlainIndex(options);
    trace, outMap := [], start;
    FilledNothing(options, start);
    var i := 1;
    PrependNothing(TraceFrom(options, argv, 1));
    while i < |argv|
      invariant 1 <= i
      invariant Inside(options, trace) && outMap == Filled(options, start, trace)
      invariant Prepend(trace, TraceFrom(options, argv, i)) == TraceFrom(options, argv, 1)
      decreases |argv| - i
    {
      var at := i;
      TraceStep(options, argv, at);
      if TraceFrom(options, argv, at).Err? { PrependFailed(trace, TraceFrom(options, argv, at).error); }
      var arg := Normalize(argv[i]);
      if arg !in argToOptions { return Err(UnknownArgument(i)), outMap, trace; }
      var o := argToOptions[arg];
      IndexesAgree(options, |options|, arg);
      var v := TakeValue(options[o], arg, argv, i);
      if v.Err? { return Err(v.error), outMap, trace; }
      var (val, next) := v.value;
      PrependMore(trace, (o, val), TraceFrom(options, argv, next));
      FilledMore(options, start, trace, o, val);
      outMap := outMap[Key(options[o]) := val];
      trace := trace + [(o, val)];
      i := next;
    }
    TraceEnd(options, argv, i);
    PrependToNothing(trace);
    r := Ok(());
  }

  lemma {:induction false} TraceEnd(options: seq<Opt>, argv: seq<string>, i: nat)
    requires i >= |argv|
    ensures TraceFrom(options, argv, i) == Ok([])
  {
  }

  lemma {:induction false} TraceStep(options: seq<Opt>, argv: seq<string>, i: nat)
    requires i < |argv|
    ensures var arg, index := Normal(argv[i]), PlainIndex(options, |options|);
            TraceFrom(options, argv, i) ==
            if arg !in index then Err(UnknownArgument(i))
            else
              var o := index[arg];
              var v := ValueAt(options[o], arg, argv, i);
              if v.Err? then Err(v.error) else Prepend([(o, v.value.0)], TraceFrom(options, argv, v.value.1))
  {
    hide PlainIndex, Normal, Prepend, ValueAt;
    IndexesAgree(options, |options|, Normal(argv[i]));
  }

  lemma {:induction false} FilledNothing(options: seq<Opt>, m: map<string, string>)
    ensures Inside(options, []) && Filled(options, m, []) == m
  {
  }

  lemma {:induction false} FilledMore(options: seq<Opt>, m: map<string, string>, trace: seq<(nat, string)>, o: nat,
          val: string)
    requires Inside(options, trace) && o < |options|
    ensures Inside(options, trace + [(o, val)])
    ensures Filled(options, m, trace + [(o, val)]) == Filled(options, m, trace)[Key(options[o]) := val]
  {
    assert (trace + [(o, val)])[..|trace|] == trace;
  }

  // ---------- the loops agree ----------

  /** A call as a map entry; calls with two values have none. */
  function EntryOf(c: (nat, Call)): (e: Option<(nat, string)>)
  {
    match c.1
    case VoidCall => Some((c.0, "1"))
    case FlagCall(positive) => Some((c.0, if positive then "1" else "0"))
    case ValueCall(text) => Some((c.0, text))
    case PairCall(_, _) => None
  }

  /** The same options with the same values, in the same order. */
  predicate SameEntries(calls: seq<(nat, Call)>, trace: seq<(nat, string)>)
    decreases |calls|
  {
    if calls == [] || trace == [] then calls == [] && trace == []
    else EntryOf(calls[0]) == Some(trace[0]) && SameEntries(calls[1..], trace[1..])
  }

  lemma {:induction false} SameEntriesMore(c: (nat, Call), e: (nat, string), calls: seq<(nat, Call)>,
          trace: seq<(nat, string)>)
    requires EntryOf(c) == Some(e)
    ensures SameEntries([c] + calls, [e] + trace) <==> SameEntries(calls, trace)
  {
    assert ([c] + calls)[1..] == calls && ([e] + trace)[1..] == trace;
  }

  /** The loops accept with the same entries, or reject at the same argument for the same reason; the first may stop
      earlier at a handler that throws, and the second stops at options with two values. */
  predicate Agree(p: Outcome<seq<(nat, Call)>>, t: Outcome<seq<(nat, string)>>)
  {
    (p.Err? && p.error.HandlerFailed?) || (t.Err? && t.error.TwoValues?) ||
    (p.Ok? && t.Ok? && SameEntries(p.value, t.value)) ||
    (p.Err? && t.Err? && p.error == t.error)
  }

  lemma {:induction false} AgreeMore(o: nat, call: Call, i: nat, val: string, works: (nat, Call) -> bool,
                                     p: Outcome<seq<(nat, Call)>>, t: Outcome<seq<(nat, string)>>)
    requires EntryOf((o, call)) == Some((o, val)) && Agree(p, t)
    ensures Agree(Called(o, call, i, works, p), Prepend([(o, val)], t))
  {
    if p.Ok? && t.Ok? { SameEntriesMore((o, call), (o, val), p.value, t.value); }
  }

  /** For every option table and every command line the two loops agree. */
  lemma {:induction false} LoopsAgree(options: seq<Opt>, argv: seq<string>, i: nat, works: (nat, Call) -> bool)
    ensures Agree(ParseFrom(options, argv, i, works), TraceFrom(options, argv, i))
    decreases |argv| - i
  {
    hide SignedIndex, PlainIndex, Normal, ParseFrom, TraceFrom, Called, Prepend, Agree, EntryOf;
    if i >= |argv| {
      ParseEnd(options, argv, i, works);
      TraceEnd(options, argv, i);
      AgreeEnd();
    } else {
      var arg := Normal(argv[i]);
      ParseStep(options, argv, i, works);
      TraceStep(options, argv, i);
      IndexesAgree(options, |options|, arg);
      AgreeRejected(i);
      if arg in PlainIndex(options, |options|) {
        var o := PlainIndex(options, |options|)[arg];
        var positive := SignedIndex(options, |options|)[arg].1;
        Entries(o, positive, if i + 1 < |argv| then argv[i + 1] else "");
        match options[o]
        case VoidOpt(_) =>
          LoopsAgree(options, argv, i + 1, works);
          AgreeMore(o, VoidCall, i, "1", works, ParseFrom(options, argv, i + 1, works),
            TraceFrom(options, argv, i + 1));
        case FlagOpt(_, _) =>
          LoopsAgree(options, argv, i + 1, works);
          AgreeMore(o, FlagCall(positive), i, if positive then "1" else "0", works,
                    ParseFrom(options, argv, i + 1, works), TraceFrom(options, argv, i + 1));
        case ValueOpt(_, _) =>
          if i + 1 < |argv| {
            LoopsAgree(options, argv, i + 2, works);
            AgreeMore(o, ValueCall(argv[i + 1]), i, argv[i + 1], works,
                      ParseFrom(options, argv, i + 2, works), TraceFrom(options, argv, i + 2));
          }
        case PairOpt(_) =>
          AgreeTwoValues(ParseFrom(options, argv, i, works), i);
      }
    }
  }

  lemma {:induction false} AgreeEnd()
    ensures Agree(Ok([]), Ok([]))
  {
  }

  lemma {:induction false} AgreeRejected(i: nat)
    ensures Agree(Err(UnknownArgument(i)), Err(UnknownArgument(i))) && Agree(Err(MissingValue(i)), Err(MissingValue(i)))
  {
  }

  lemma {:induction false} AgreeTwoValues(p: Outcome<seq<(nat, Call)>>, i: nat)
    ensures Agree(p, Err(TwoValues(i)))
  {
  }

  lemma {:induction false} Entries(o: nat, positive: bool, val: string)
    ensures EntryOf((o, VoidCall)) == Some((o, "1")) && EntryOf((o, ValueCall(val))) == Some((o, val))
    ensures EntryOf((o, FlagCall(positive))) == Some((o, if positive then "1" else "0"))
  {
  }

  predicate HasPair(calls: seq<(nat, Call)>) { exists k :: 0 <= k < |calls| && calls[k].1.PairCall? }

  /** The second loop stops at two values only where the first makes a call with two values or misses one of them. */
  lemma {:induction false} TwoValuesMeans(options: seq<Opt>, argv: seq<string>, i: nat, works: (nat, Call) -> bool)
    requires TraceFrom(options, argv, i).Err? && TraceFrom(options, argv, i).error.TwoValues?
    ensures var p := ParseFrom(options, argv, i, works);
            p.Err? || HasPair(p.value)
    decreases |argv| - i
  {
    hide SignedIndex, PlainIndex, Normal, ParseFrom, TraceFrom;
    if i < |argv| {
      var arg := Normal(argv[i]);
      ParseStep(options, argv, i, works);
      TraceStep(options, argv, i);
      IndexesAgree(options, |options|, arg);
      if arg in PlainIndex(options, |options|) {
        var o := PlainIndex(options, |options|)[arg];
        if options[o].VoidOpt? || options[o].FlagOpt? {
          TwoValuesMeans(options, argv, i + 1, works);
        } else if options[o].ValueOpt? && i + 1 < |argv| {
          TwoValuesMeans(options, argv, i + 2, works);
        }
      }
      PairKept(ParseFrom(options, argv, i + 1, works), works);
      PairKept(ParseFrom(options, argv, i + 2, works), works);
      PairMade(ParseFrom(options, argv, i + 3, works), works);
    } else {
      TraceEnd(options, argv, i);
    }
  }

  lemma {:induction false} PairKept(rest: Outcome<seq<(nat, Call)>>, works: (nat, Call) -> bool)
    ensures forall o: nat, call: Call, i: nat :: (rest.Ok? ==> HasPair(rest.value)) ==>
              var r := Called(o, call, i, works, rest); r.Err? || HasPair(r.value)
  {
    forall o: nat, call: Call | rest.Ok? && HasPair(rest.value) && works(o, call)
      ensures HasPair([(o, call)] + rest.value)
    {
      var k :| 0 <= k < |rest.value| && rest.value[k].1.PairCall?;
      assert ([(o, call)] + rest.value)[k + 1] == rest.value[k];
    }
  }

  lemma {:induction false} PairMade(rest: Outcome<seq<(nat, Call)>>, works: (nat, Call) -> bool)
    ensures forall o: nat, x: string, y: string, i: nat ::
      var r := Called(o, PairCall(x, y), i, works, rest); r.Err? || HasPair(r.value)
  {
    forall o: nat, x: string, y: string | rest.Ok?
      ensures HasPair([(o, PairCall(x, y))] + rest.value)
    {
      assert ([(o, PairCall(x, y))] + rest.value)[0].1.PairCall?;
    }
  }

  /** Whatever the handlers do: if the command line parses, the map is filled without an error exactly when there is no
      two-valued option, and then with the values the handlers got; if parsing fails other than in a handler, the map
      is not filled; and the map fails for the same reason or after a handler did. So if no handler throws, the map is
      filled exactly when the command line parses without a two-valued option. */
  lemma {:induction false} MapExactly(options: seq<Opt>, argv: seq<string>, works: (nat, Call) -> bool)
    ensures var p, t := ParseFrom(options, argv, 1, works), TraceFrom(options, argv, 1);
            (p.Ok? ==> (t.Ok? <==> !HasPair(p.value))) &&
            (p.Ok? && t.Ok? ==> SameEntries(p.value, t.value)) &&
            (p.Err? && !p.error.HandlerFailed? ==> t.Err?) &&
            (t.Err? && !t.error.TwoValues? ==> p.Err? && (p.error == t.error || p.error.HandlerFailed?)) &&
            ((forall o, call :: works(o, call)) ==> (t.Ok? <==> p.Ok? && !HasPair(p.value)))
  {
    hide ParseFrom, TraceFrom;
    var p, t := ParseFrom(options, argv, 1, works), TraceFrom(options, argv, 1);
    LoopsAgree(options, argv, 1, works);
    if forall o, call :: works(o, call) { NeverFails(options, argv, 1, works); }
    if t.Err? && t.error.TwoValues? { TwoValuesMeans(options, argv, 1, works); }
    if p.Ok? && t.Ok? { NoPairs(p.value, t.value); }
  }

  /** One option with two values, given both: the handler is called, and no map is filled. */
  lemma {:induction false} PairRejected(works: (nat, Call) -> bool)
    requires works(0, PairCall("1", "2"))
    ensures var options, argv := [PairOpt(["--p"])], ["program", "--p", "1", "2"];
            ParseFrom(options, argv, 1, works) == Ok([(0, PairCall("1", "2"))]) &&
            TraceFrom(options, argv, 1) == Err(TwoValues(1))
  {
    hide ParseFrom, TraceFrom, SignedIndex, PlainIndex, Normal;
    var options, argv := [PairOpt(["--p"])], ["program", "--p", "1", "2"];
    OnlyName(PairOpt(["--p"]), "--p");
    assert [(0, PairCall("1", "2"))] + [] == [(0, PairCall("1", "2"))];
    Dashes();
    ParseStep(options, argv, 1, works);
    ParseEnd(options, argv, 4, works);
    TraceStep(options, argv, 1);
  }

  lemma {:induction false} OnlyName(o: Opt, name: string)
    requires name in o.args && NegNames(o) == []
    ensures var signed, plain := SignedIndex([o], 1), PlainIndex([o], 1);
            name in signed && signed[name] == (0, true) && name in plain && plain[name] == 0
  {
  }

  lemma {:induction false} Dashes()
    ensures Normal("--p") == "--p"
  {
  }

  lemma {:induction false} NoPairs(calls: seq<(nat, Call)>, trace: seq<(nat, string)>)
    requires SameEntries(calls, trace)
    ensures !HasPair(calls)
    decreases |calls|
  {
    if calls != [] {
      NoPairs(calls[1..], trace[1..]);
      assert forall k :: 1 <= k < |calls| ==> calls[k] == calls[1..][k - 1];
    }
  }

  lemma {:induction false} NeverFails(options: seq<Opt>, argv: seq<string>, i: nat, works: (nat, Call) -> bool)
    requires forall o, call :: works(o, call)
    ensures var p := ParseFrom(options, argv, i, works); p.Err? ==> !p.error.HandlerFailed?
    decreases |argv| - i
  {
    hide SignedIndex, Normal, ParseFrom;
    if i >= |argv| {
      ParseEnd(options, argv, i, works);
    } else {
      ParseStep(options, argv, i, works);
      NeverFails(options, argv, i + 1, works);
      NeverFails(options, argv, i + 2, works);
      NeverFails(options, argv, i + 3, works);
    }
  }

  /** With distinct first names, the map holds for every option the last of its values, and nothing new for options
      that do not occur. */
  lemma {:induction false} LastValueWins(options: seq<Opt>, start: map<string, string>, trace: seq<(nat, string)>,
          o: nat)
    requires Inside(options, trace) && o < |options|
    requires forall a, b :: 0 <= a < b < |options| ==> Key(options[a]) != Key(options[b])
    ensures var m, key := Filled(options, start, trace), Key(options[o]);
            if exists k :: 0 <= k < |trace| && trace[k].0 == o then
              exists k :: 0 <= k < |trace| && trace[k].0 == o && key in m && m[key] == trace[k].1 &&
                forall j :: k < j < |trace| ==> trace[j].0 != o
            else (key in m <==> key in start) && (key in m ==> m[key] == start[key])
    decreases |trace|
  {
    hide Key;
    if trace != [] {
      var n := |trace| - 1;
      var before := trace[..n];
      LastValueWins(options, start, before, o);
      if trace[n].0 == o {
        assert Key(options[o]) in Filled(options, start, trace);
      } else {
        assert Key(options[trace[n].0]) != Key(options[o]);
        if exists k :: 0 <= k < n && trace[k].0 == o {
          var k0 :| 0 <= k0 < n && trace[k0].0 == o;
          assert before[k0].0 == o;
          var m := Filled(options, start, before);
          var k :| 0 <= k < n && before[k].0 == o && Key(options[o]) in m && m[Key(options[o])] == before[k].1 &&
            forall j :: k < j < n ==> before[j].0 != o;
          assert trace[k].0 == o && forall j :: k < j < |trace| ==> trace[j].0 != o;
        } else {
          assert forall k :: 0 <= k < n ==> before[k].0 != o;
        }
      }
    }
  }
}
