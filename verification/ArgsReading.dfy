/** What a command line means: the calls it is read as, told without the loop and its index. */
module ArgsReading {
  import opened Wrappers
  import opened Args

  /** `name` is the argument with dashes for underscores behind two dashes, and the argument itself otherwise. */
  predicate Spelled(arg: string, name: string)
  {
    if |arg| >= 2 && arg[0] == '-' && arg[1] == '-' then
      |name| == |arg| && forall i :: 0 <= i < |arg| ==> name[i] == if arg[i] == '_' then '-' else arg[i]
    else name == arg
  }

  lemma {:induction false} SpelledIs(arg: string, name: string)
    ensures Spelled(arg, name) <==> name == Normal(arg)
  {
    assert "--" <= arg <==> |arg| >= 2 && arg[0] == '-' && arg[1] == '-';
  }

  predicate Negates(o: Opt, name: string) { o.FlagOpt? && name in o.neg }

  predicate Has(o: Opt, name: string) { name in o.args || Negates(o, name) }

  /** Option `o` is the last one with this name, which is a positive one unless it is listed as negative. */
  predicate Owner(options: seq<Opt>, name: string, o: nat, positive: bool)
  {
    o < |options| && Has(options[o], name) && (forall j :: o < j < |options| ==> !Has(options[j], name)) &&
    (positive <==> !Negates(options[o], name))
  }

  lemma {:induction false} OwnerMore(options: seq<Opt>, last: Opt, name: string, o: nat, positive: bool)
    ensures Owner(options + [last], name, o, positive) <==>
            if Has(last, name) then o == |options| && (positive <==> !Negates(last, name))
            else Owner(options, name, o, positive)
  {
    hide Has, Negates;
    var all := options + [last];
    assert all[|options|] == last && forall j :: 0 <= j < |options| ==> all[j] == options[j];
  }

  lemma {:induction false} OwnerIs(options: seq<Opt>, n: nat, name: string, o: nat, positive: bool)
    requires n <= |options|
    ensures var m := SignedIndex(options, n);
            Owner(options[..n], name, o, positive) <==> name in m && m[name] == (o, positive)
  {
    hide *;
    if n == 0 {
      NoOwner(options, name, o, positive);
    } else {
      OwnerIs(options, n - 1, name, o, positive);
      IndexStep(options, n, name);
      OwnerMore(options[..n - 1], options[n - 1], name, o, positive);
      assert options[..n] == options[..n - 1] + [options[n - 1]];
    }
  }

  lemma {:induction false} NoOwner(options: seq<Opt>, name: string, o: nat, positive: bool)
    ensures !Owner(options[..0], name, o, positive) && SignedIndex(options, 0) == map[]
  {
  }

  /** The last of `n` options takes its names over. */
  lemma {:induction false} IndexStep(options: seq<Opt>, n: nat, name: string)
    requires 0 < n <= |options|
    ensures var m, before, o := SignedIndex(options, n), SignedIndex(options, n - 1), options[n - 1];
            (name in m <==> name in before || Has(o, name)) &&
            (name in m ==> m[name] == if Has(o, name) then (n - 1, !Negates(o, name)) else before[name])
  {
    hide Registered;
    var o := options[n - 1];
    assert name in NegNames(o) <==> Negates(o, name);
  }

  /** The argument, with dashes for underscores, is a name of option `o`. */
  ghost predicate Denotes(options: seq<Opt>, arg: string, o: nat, positive: bool)
  {
    exists name :: Spelled(arg, name) && Owner(options, name, o, positive)
  }

  lemma {:induction false} DenotesIs(options: seq<Opt>, arg: string, o: nat, positive: bool)
    ensures var m := SignedIndex(options, |options|);
            Denotes(options, arg, o, positive) <==> Normal(arg) in m && m[Normal(arg)] == (o, positive)
  {
    hide Spelled, Owner, SignedIndex, Normal;
    SpelledIs(arg, Normal(arg));
    assert options[..|options|] == options;
    OwnerIs(options, |options|, Normal(arg), o, positive);
    forall name | Spelled(arg, name)
      ensures name == Normal(arg)
    {
      SpelledIs(arg, name);
    }
  }

  /** The arguments from `i` on are these calls written down: each is a name of its option, followed by the values the
      option takes, and nothing is left over. */
  ghost predicate Written(options: seq<Opt>, argv: seq<string>, i: nat, calls: seq<(nat, Call)>)
    decreases |calls|
  {
    if calls == [] then i >= |argv|
    else
      var (o, call) := calls[0];
      o < |options| && i < |argv| &&
      match options[o]
      case VoidOpt(_) =>
        (exists positive :: Denotes(options, argv[i], o, positive)) && call == VoidCall &&
        Written(options, argv, i + 1, calls[1..])
      case FlagOpt(_, _) =>
        call.FlagCall? && Denotes(options, argv[i], o, call.positive) && Written(options, argv, i + 1, calls[1..])
      case ValueOpt(_, _) =>
        (exists positive :: Denotes(options, argv[i], o, positive)) && i + 1 < |argv| &&
        call == ValueCall(argv[i + 1]) && Written(options, argv, i + 2, calls[1..])
      case PairOpt(_) =>
        (exists positive :: Denotes(options, argv[i], o, positive)) && i + 2 < |argv| &&
        call == PairCall(argv[i + 1], argv[i + 2]) && Written(options, argv, i + 3, calls[1..])
  }

  predicate AllWork(works: (nat, Call) -> bool, calls: seq<(nat, Call)>)
  {
    forall k :: 0 <= k < |calls| ==> works(calls[k].0, calls[k].1)
  }

  /** The loop succeeds with exactly the calls the command line is written for, if no handler throws. */
  lemma {:induction false} ReadExactly(options: seq<Opt>, argv: seq<string>, i: nat, works: (nat, Call) -> bool,
                                       calls: seq<(nat, Call)>)
    ensures ParseFrom(options, argv, i, works) == Ok(calls) <==>
      Written(options, argv, i, calls) && AllWork(works, calls)
    decreases |argv| - i
  {
    hide ParseFrom, Denotes, SignedIndex, Normal;
    if i >= |argv| {
      ParseEnd(options, argv, i, works);
    } else {
      ParseStep(options, argv, i, works);
      var arg, m := Normal(argv[i]), SignedIndex(options, |options|);
      forall o: nat, positive
        ensures Denotes(options, argv[i], o, positive) <==> arg in m && m[arg] == (o, positive)
      {
        DenotesIs(options, argv[i], o, positive);
      }
      if calls != [] {
        ReadExactly(options, argv, i + 1, works, calls[1..]);
        ReadExactly(options, argv, i + 2, works, calls[1..]);
        ReadExactly(options, argv, i + 3, works, calls[1..]);
        FirstWorks(works, calls);
        if arg in m {
          CallFirst(m[arg].0, works, calls, i, ParseFrom(options, argv, i + 1, works));
          CallFirst(m[arg].0, works, calls, i, ParseFrom(options, argv, i + 2, works));
          CallFirst(m[arg].0, works, calls, i, ParseFrom(options, argv, i + 3, works));
        }
      }
    }
  }

  lemma {:induction false} FirstWorks(works: (nat, Call) -> bool, calls: seq<(nat, Call)>)
    requires calls != []
    ensures AllWork(works, calls) <==> works(calls[0].0, calls[0].1) && AllWork(works, calls[1..])
  {
    assert forall k :: 1 <= k < |calls| ==> calls[k] == calls[1..][k - 1];
  }

  lemma {:induction false} CallFirst(o: nat, works: (nat, Call) -> bool, calls: seq<(nat, Call)>, i: nat,
                                     rest: Outcome<seq<(nat, Call)>>)
    requires calls != []
    ensures forall call :: Called(o, call, i, works, rest) == Ok(calls) <==>
              works(o, call) && calls[0] == (o, call) && rest == Ok(calls[1..])
  {
    forall call
      ensures Called(o, call, i, works, rest) == Ok(calls) <==>
                works(o, call) && calls[0] == (o, call) && rest == Ok(calls[1..])
    {
      if rest.Ok? { assert ([(o, call)] + rest.value)[1..] == rest.value; }
      assert calls == [calls[0]] + calls[1..];
    }
  }
}
