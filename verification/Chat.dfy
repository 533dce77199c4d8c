/** Chat messages while they stream: the differ, the client that applies its deltas, and the tool-call ids a
    server keeps stable between messages. */
module Chat {
  import opened Wrappers

  datatype ToolCall = ToolCall(name: string, arguments: string, id: string)

  const NO_CALL := ToolCall("", "", "")

  /** The fields of a message that parsing fills in. */
  datatype Message = Message(content: string, reasoning: string, calls: seq<ToolCall>)

  const EMPTY := Message("", "", [])

  type Outcome<+T> = Result<T, string>

  // ---------- the differ (chat.cpp, lines 54-67 and 264-330) ----------

  datatype Diff = Diff(reasoningDelta: string, contentDelta: string, index: Option<nat>, call: ToolCall)

  function StringDiff(last: string, current: string): (r: Outcome<string>)
    ensures last <= current ==> r == Ok(current[|last|..])
    ensures r.Ok? ==> (last + r.value == current <==> last <= current)
  {
    if last == "" then Ok(current)
    else if !(last <= current) then if current <= last then Ok("") else Err("Invalid diff")
    else Ok(current[|last|..])
  }

  function ReasoningDiffs(prv: Message, new_: Message): (r: Outcome<seq<Diff>>)
  {
    if prv.reasoning == new_.reasoning then Ok([])
    else
      var d := StringDiff(prv.reasoning, new_.reasoning);
      if d.Err? then Err(d.error) else Ok([Diff(d.value, "", None, NO_CALL)])
  }

  function ContentDiffs(prv: Message, new_: Message): (r: Outcome<seq<Diff>>)
  {
    if prv.content == new_.content then Ok([])
    else
      var d := StringDiff(prv.content, new_.content);
      if d.Err? then Err(d.error) else Ok([Diff("", d.value, None, NO_CALL)])
  }

  /** The change of the call that was last in the previous message. */
  function CallDiffs(idx: nat, pref: ToolCall, newf: ToolCall): (r: Outcome<seq<Diff>>)
  {
    if pref.name != newf.name && pref.name != "" && newf.name != "" && !(pref.name <= newf.name) then
      Err("Invalid diff: tool call mismatch!")
    else
      var d := StringDiff(pref.arguments, newf.arguments);
      if d.Err? then Err(d.error)
      else
        var renamed := pref.id != newf.id || pref.name != newf.name;
        if d.value != "" || renamed then
          Ok([Diff("", "", Some(idx),
                   if renamed then ToolCall(newf.name, d.value, newf.id) else ToolCall("", d.value, ""))])
        else Ok([])
  }

  function NewCalls(calls: seq<ToolCall>, idx: nat): (r: seq<Diff>)
    decreases |calls| - idx
  {
    if idx >= |calls| then [] else [Diff("", "", Some(idx), calls[idx])] + NewCalls(calls, idx + 1)
  }

  function Diffs(prv: Message, new_: Message): (r: Outcome<seq<Diff>>)
  {
    var reasoning, content := ReasoningDiffs(prv, new_), ContentDiffs(prv, new_);
    if reasoning.Err? then reasoning
    else if content.Err? then content
    else if |new_.calls| < |prv.calls| then Err("Invalid diff: now finding less tool calls!")
    else
      var last := if prv.calls == [] then Ok([])
                  else CallDiffs(|prv.calls| - 1, prv.calls[|prv.calls| - 1], new_.calls[|prv.calls| - 1]);
      if last.Err? then last
      else Ok(reasoning.value + content.value + last.value + NewCalls(new_.calls, |prv.calls|))
  }

  method ComputeDiffs(prv: Message, new_: Message) returns (r: Outcome<seq<Diff>>)
    ensures r == Diffs(prv, new_)
  {
    hide CallDiffs, StringDiff;
    var diffs: seq<Diff> := [];
    if prv.reasoning != new_.reasoning {
      var d := StringDiff(prv.reasoning, new_.reasoning);
      if d.Err? { return Err(d.error); }
      diffs := diffs + [Diff(d.value, "", None, NO_CALL)];
    }
    if prv.content != new_.content {
      var d := StringDiff(prv.content, new_.content);
      if d.Err? { return Err(d.error); }
      diffs := diffs + [Diff("", d.value, None, NO_CALL)];
    }
    if |new_.calls| < |prv.calls| { return Err("Invalid diff: now finding less tool calls!"); }
    if prv.calls != [] {
      var idx := |prv.calls| - 1;
      var last := CallDiffs(idx, prv.calls[idx], new_.calls[idx]);
      if last.Err? { return last; }
      diffs := diffs + last.value;
    }
    ghost var before := diffs;
    for idx := |prv.calls| to |new_.calls|
      invariant diffs + NewCalls(new_.calls, idx) == before + NewCalls(new_.calls, |prv.calls|)
    {
      assert [Diff("", "", Some(idx), new_.calls[idx])] + NewCalls(new_.calls, idx + 1) == NewCalls(new_.calls, idx);
      diffs := diffs + [Diff("", "", Some(idx), new_.calls[idx])];
    }
    assert NewCalls(new_.calls, |new_.calls|) == [];
    assert diffs == before + NewCalls(new_.calls, |prv.calls|);
    assert before == ReasoningDiffs(prv, new_).value + ContentDiffs(prv, new_).value +
      if prv.calls == [] then []
      else CallDiffs(|prv.calls| - 1, prv.calls[|prv.calls| - 1], new_.calls[|prv.calls| - 1]).value;
    r := Ok(diffs);
  }

  // ---------- the client (tests/test-chat.cpp, lines 1081-1103) ----------

  function PadCalls(calls: seq<ToolCall>, idx: nat): (r: seq<ToolCall>)
    ensures idx < |r| && calls <= r
    decreases idx + 1 - |calls|
  {
    if idx < |calls| then calls else PadCalls(calls + [NO_CALL], idx)
  }

  function UpdateCall(call: ToolCall, delta: ToolCall): (r: ToolCall)
  {
    ToolCall(if delta.name != "" then delta.name else call.name,
             call.arguments + delta.arguments,
             if delta.id != "" then delta.id else call.id)
  }

  function ApplyDiff(msg: Message, diff: Diff): (r: Message)
  {
    var m := msg.(reasoning := msg.reasoning + diff.reasoningDelta, content := msg.content + diff.contentDelta);
    if diff.index.None? then m
    else
      var idx := diff.index.value;
      var calls := PadCalls(m.calls, idx);
      m.(calls := calls[idx := UpdateCall(calls[idx], diff.call)])
  }

  function ApplyAll(msg: Message, diffs: seq<Diff>): (r: Message)
    decreases |diffs|
  {
    if diffs == [] then msg else ApplyAll(ApplyDiff(msg, diffs[0]), diffs[1..])
  }

  lemma {:induction false} ApplyAppend(msg: Message, a: seq<Diff>, b: seq<Diff>)
    ensures ApplyAll(msg, a + b) == ApplyAll(ApplyAll(msg, a), b)
    decreases |a|
  {
    if a == [] {
      assert a + b == b;
    } else {
      assert (a + b)[1..] == a[1..] + b;
      ApplyAppend(ApplyDiff(msg, a[0]), a[1..], b);
    }
  }

  // ---------- what it takes for the client to catch up ----------

  predicate CallExtends(p: ToolCall, n: ToolCall)
  {
    p.arguments <= n.arguments &&
    (p.name == n.name || (n.name != "" && p.name <= n.name)) &&
    (p.id == n.id || n.id != "")
  }

  /** The new message only adds to the previous one: texts and the last call's arguments grow, earlier calls are
      untouched, and a name or id is never taken back. */
  predicate Extends(prv: Message, new_: Message)
  {
    prv.reasoning <= new_.reasoning && prv.content <= new_.content && |prv.calls| <= |new_.calls| &&
    (forall i :: 0 <= i < |prv.calls| - 1 ==> prv.calls[i] == new_.calls[i]) &&
    (prv.calls != [] ==> CallExtends(prv.calls[|prv.calls| - 1], new_.calls[|prv.calls| - 1]))
  }

  lemma {:induction false} ExtendsTransitive(a: Message, b: Message, c: Message)
    requires Extends(a, b) && Extends(b, c)
    ensures Extends(a, c)
  {
    if a.calls != [] {
      var k := |a.calls| - 1;
      assert k < |b.calls| - 1 ==> b.calls[k] == c.calls[k];
    }
  }

  /** A text diff changes nothing about the calls. */
  lemma {:induction false} TextDiffApplied(msg: Message, reasoning: string, content: string)
    ensures ApplyDiff(msg, Diff(reasoning, content, None, NO_CALL)) ==
            Message(msg.content + content, msg.reasoning + reasoning, msg.calls)
  {
  }

  lemma {:induction false} CallDiffApplied(msg: Message, idx: nat, call: ToolCall)
    requires idx <= |msg.calls|
    ensures ApplyDiff(msg, Diff("", "", Some(idx), call)) ==
            Message(msg.content, msg.reasoning,
                    if idx == |msg.calls| then msg.calls + [call]
                    else msg.calls[idx := UpdateCall(msg.calls[idx], call)])
  {
    assert msg.content + "" == msg.content && msg.reasoning + "" == msg.reasoning;
    if idx == |msg.calls| {
      assert PadCalls(msg.calls, idx) == PadCalls(msg.calls + [NO_CALL], idx) == msg.calls + [NO_CALL];
      assert UpdateCall(NO_CALL, call) == call by { assert "" + call.arguments == call.arguments; }
      assert (msg.calls + [NO_CALL])[idx := call] == msg.calls + [call];
    }
  }

  lemma {:induction false} NewCallsApplied(msg: Message, calls: seq<ToolCall>)
    requires |msg.calls| <= |calls|
    ensures ApplyAll(msg, NewCalls(calls, |msg.calls|)) == msg.(calls := msg.calls + calls[|msg.calls|..])
    decreases |calls| - |msg.calls|
  {
    var k := |msg.calls|;
    if k < |calls| {
      var d := Diff("", "", Some(k), calls[k]);
      CallDiffApplied(msg, k, calls[k]);
      assert NewCalls(calls, k) == [d] + NewCalls(calls, k + 1);
      assert ([d] + NewCalls(calls, k + 1))[1..] == NewCalls(calls, k + 1);
      NewCallsApplied(ApplyDiff(msg, d), calls);
      assert msg.calls + calls[k..] == msg.calls + [calls[k]] + calls[k + 1..];
    } else {
      assert msg.calls + calls[k..] == msg.calls;
    }
  }

  function TextAfter(prv: string, new_: string): (r: string)
    requires prv == new_ || StringDiff(prv, new_).Ok?
    ensures r == new_ <==> prv <= new_
  {
    prv + (if prv == new_ then "" else StringDiff(prv, new_).value)
  }

  lemma {:induction false} ReasoningApplied(prv: Message, new_: Message)
    requires ReasoningDiffs(prv, new_).Ok?
    ensures ApplyAll(prv, ReasoningDiffs(prv, new_).value) ==
      prv.(reasoning := TextAfter(prv.reasoning, new_.reasoning))
  {
    AtMostOne(prv, ReasoningDiffs(prv, new_).value);
    if prv.reasoning != new_.reasoning {
      TextDiffApplied(prv, StringDiff(prv.reasoning, new_.reasoning).value, "");
      assert prv.content + "" == prv.content;
    }
  }

  lemma {:induction false} ContentApplied(msg: Message, prv: Message, new_: Message)
    requires ContentDiffs(prv, new_).Ok? && msg.content == prv.content
    ensures ApplyAll(msg, ContentDiffs(prv, new_).value) == msg.(content := TextAfter(prv.content, new_.content))
  {
    AtMostOne(msg, ContentDiffs(prv, new_).value);
    if prv.content != new_.content {
      TextDiffApplied(msg, "", StringDiff(prv.content, new_.content).value);
      assert msg.reasoning + "" == msg.reasoning;
    }
  }

  lemma {:induction false} LastApplied(msg: Message, idx: nat, n: ToolCall)
    requires idx < |msg.calls| && CallDiffs(idx, msg.calls[idx], n).Ok?
    ensures ApplyAll(msg, CallDiffs(idx, msg.calls[idx], n).value) ==
            msg.(calls := msg.calls[idx := ClientCall(msg.calls[idx], n)])
  {
    var diffs := CallDiffs(idx, msg.calls[idx], n).value;
    AtMostOne(msg, diffs);
    if diffs != [] {
      CallDiffApplied(msg, idx, diffs[0].call);
    } else {
      assert msg.calls[idx].arguments + "" == msg.calls[idx].arguments;
      assert ClientCall(msg.calls[idx], n) == msg.calls[idx];
      assert msg.calls[idx := msg.calls[idx]] == msg.calls;
    }
  }

  /** What the client holds after the diffs: every part only depends on its own kind of diff. */
  lemma {:induction false} AfterDiffs(prv: Message, new_: Message)
    requires Diffs(prv, new_).Ok?
    ensures prv.reasoning == new_.reasoning || StringDiff(prv.reasoning, new_.reasoning).Ok?
    ensures prv.content == new_.content || StringDiff(prv.content, new_.content).Ok?
    ensures |prv.calls| <= |new_.calls| &&
      (prv.calls != [] ==> CallDiffs(0, prv.calls[|prv.calls| - 1], new_.calls[|prv.calls| - 1]).Ok?)
    ensures ApplyAll(prv, Diffs(prv, new_).value) ==
            Message(TextAfter(prv.content, new_.content), TextAfter(prv.reasoning, new_.reasoning),
              ClientCalls(prv.calls, new_.calls))
  {
    hide ApplyAll, NewCalls, ClientCall, StringDiff;
    var reasoning, content := ReasoningDiffs(prv, new_).value, ContentDiffs(prv, new_).value;
    var k := |prv.calls| - 1;
    var last := if prv.calls == [] then [] else CallDiffs(k, prv.calls[k], new_.calls[k]).value;
    ApplyAppend(prv, reasoning + content + last, NewCalls(new_.calls, |prv.calls|));
    ApplyAppend(prv, reasoning + content, last);
    ApplyAppend(prv, reasoning, content);
    ReasoningApplied(prv, new_);
    var m1 := ApplyAll(prv, reasoning);
    ContentApplied(m1, prv, new_);
    var m2 := ApplyAll(m1, content);
    if prv.calls == [] { AtMostOne(m2, last); } else { LastApplied(m2, k, new_.calls[k]); }
    NewCallsApplied(ApplyAll(m2, last), new_.calls);
  }

  lemma {:induction false} AtMostOne(msg: Message, diffs: seq<Diff>)
    requires |diffs| <= 1
    ensures ApplyAll(msg, diffs) == if diffs == [] then msg else ApplyDiff(msg, diffs[0])
  {
  }

  /** The client's view of the call that was last. */
  function ClientCall(p: ToolCall, n: ToolCall): (r: ToolCall)
    requires CallDiffs(0, p, n).Ok?
  {
    var renamed := p.id != n.id || p.name != n.name;
    ToolCall(if renamed && n.name != "" then n.name else p.name,
             p.arguments + StringDiff(p.arguments, n.arguments).value,
             if renamed && n.id != "" then n.id else p.id)
  }

  function ClientCalls(prv: seq<ToolCall>, new_: seq<ToolCall>): (r: seq<ToolCall>)
    requires |prv| <= |new_| && (prv != [] ==> CallDiffs(0, prv[|prv| - 1], new_[|prv| - 1]).Ok?)
    ensures |r| == |new_|
  {
    (if prv == [] then [] else prv[|prv| - 1 := ClientCall(prv[|prv| - 1], new_[|prv| - 1])]) + new_[|prv|..]
  }

  /** The differ accepts a pair of messages and brings a client from the first exactly to the second if and only
      if the second extends the first. */
  lemma {:induction false} ReplayExactly(prv: Message, new_: Message)
    ensures (Diffs(prv, new_).Ok? && ApplyAll(prv, Diffs(prv, new_).value) == new_) <==> Extends(prv, new_)
  {
    hide ApplyAll, StringDiff, ClientCalls, CallExtends, TextAfter;
    if Diffs(prv, new_).Ok? {
      hide Diffs;
      AfterDiffs(prv, new_);
      CallsCaughtUp(prv.calls, new_.calls);
    } else if Extends(prv, new_) {
      Accepted(prv, new_);
    }
  }

  lemma {:induction false} Accepted(prv: Message, new_: Message)
    requires Extends(prv, new_)
    ensures Diffs(prv, new_).Ok?
  {
    hide NewCalls;
  }

  lemma {:induction false} CallCaughtUp(p: ToolCall, n: ToolCall)
    requires CallDiffs(0, p, n).Ok?
    ensures ClientCall(p, n) == n <==> CallExtends(p, n)
  {
  }

  lemma {:induction false} CallsCaughtUp(prv: seq<ToolCall>, new_: seq<ToolCall>)
    requires |prv| <= |new_| && (prv != [] ==> CallDiffs(0, prv[|prv| - 1], new_[|prv| - 1]).Ok?)
    ensures ClientCalls(prv, new_) == new_ <==>
            ((forall i :: 0 <= i < |prv| - 1 ==> prv[i] == new_[i]) &&
             (prv != [] ==> CallExtends(prv[|prv| - 1], new_[|prv| - 1])))
  {
    var r := ClientCalls(prv, new_);
    assert forall i :: |prv| <= i < |new_| ==> r[i] == new_[i];
    assert forall i :: 0 <= i < |prv| - 1 ==> r[i] == prv[i];
    if prv != [] {
      CallCaughtUp(prv[|prv| - 1], new_[|prv| - 1]);
      assert r[|prv| - 1] == ClientCall(prv[|prv| - 1], new_[|prv| - 1]);
    }
  }

  // ---------- tool-call ids (chat.h, lines 108-119; server-task.cpp, lines 158-177) ----------

  /** Ids handed out by a generator: the n-th call gives `gen(n)`. */
  datatype Ids = Ids(cache: seq<string>, used: nat)

  function CacheIds(calls: seq<ToolCall>, ids: Ids, gen: nat -> string): (r: Ids)
    ensures ids.cache <= r.cache && |calls| <= |r.cache|
    ensures |r.cache| == if |calls| <= |ids.cache| then |ids.cache| else |calls|
    decreases |calls| - |ids.cache|
  {
    var i := |ids.cache|;
    if i >= |calls| then ids
    else if calls[i].id == "" then CacheIds(calls, Ids(ids.cache + [gen(ids.used)], ids.used + 1), gen)
    else CacheIds(calls, ids.(cache := ids.cache + [calls[i].id]), gen)
  }

  function WithIds(calls: seq<ToolCall>, cache: seq<string>): (r: seq<ToolCall>)
    requires |calls| <= |cache|
    ensures |r| == |calls|
    ensures forall i :: 0 <= i < |r| ==> r[i] == calls[i].(id := cache[i])
  {
    seq(|calls|, i requires 0 <= i < |calls| => calls[i].(id := cache[i]))
  }

  /** The number of calls without an id from `from` on and before `end`. */
  function Idless(calls: seq<ToolCall>, from: nat, end: nat): (n: nat)
    requires end <= |calls|
    decreases end
  {
    if end <= from then 0 else Idless(calls, from, end - 1) + if calls[end - 1].id == "" then 1 else 0
  }

  /** The `n`-th generated id. */
  function Generated(gen: nat -> string, n: nat): (id: string) { gen(n) }

  /** The id a new call gets. */
  function IdFor(calls: seq<ToolCall>, gen: nat -> string, from: nat, used: nat, k: nat): (id: string)
    requires k < |calls|
  {
    if calls[k].id != "" then calls[k].id else Generated(gen, used + Idless(calls, from, k))
  }

  /** What becomes of the ids: cached ones stay, a new call keeps its own, and a new call without one gets the next
      generated id. Nothing else about a call changes. */
  predicate IdsGiven(calls: seq<ToolCall>, ids: Ids, gen: nat -> string, calls': seq<ToolCall>, ids': Ids)
  {
    ids.cache <= ids'.cache && |calls'| == |calls| &&
    ids'.used == ids.used + Idless(calls, |ids.cache|, |calls|) &&
    forall k :: 0 <= k < |calls| ==>
      calls'[k] == calls[k].(id :=
        if k < |ids.cache| then ids.cache[k] else IdFor(calls, gen, |ids.cache|, ids.used, k))
  }

  lemma {:induction false} CacheStep(calls: seq<ToolCall>, ids: Ids, gen: nat -> string, from: nat, used: nat)
    requires from <= |ids.cache| < |calls| && ids.used == used + Idless(calls, from, |ids.cache|)
    ensures var i := |ids.cache|;
            CacheIds(calls, ids, gen) ==
            CacheIds(calls, Ids(ids.cache + [IdFor(calls, gen, from, used, i)], used + Idless(calls, from, i + 1)), gen)
  {
    hide Idless;
    assert Idless(calls, from, |ids.cache| + 1) ==
           Idless(calls, from, |ids.cache|) + if calls[|ids.cache|].id == "" then 1 else 0 by {
      IdlessMore(calls, from, |ids.cache|);
    }
  }

  lemma {:induction false} IdlessMore(calls: seq<ToolCall>, from: nat, i: nat)
    requires from <= i < |calls|
    ensures Idless(calls, from, i + 1) == Idless(calls, from, i) + if calls[i].id == "" then 1 else 0
  {
  }

  /** The ids of the calls from `i` on, when those from `from` to `i` have been given theirs. */
  lemma {:induction false} CachedIds(calls: seq<ToolCall>, ids: Ids, gen: nat -> string, from: nat, used: nat)
    requires from <= |ids.cache| <= |calls| && ids.used == used + Idless(calls, from, |ids.cache|)
    ensures var r := CacheIds(calls, ids, gen);
            r.used == used + Idless(calls, from, |calls|) &&
            forall k :: |ids.cache| <= k < |calls| ==> r.cache[k] == IdFor(calls, gen, from, used, k)
    decreases |calls| - |ids.cache|
  {
    var i := |ids.cache|;
    if i < |calls| {
      hide CacheIds, IdFor, Idless;
      CacheStep(calls, ids, gen, from, used);
      var id := IdFor(calls, gen, from, used, i);
      var next := Ids(ids.cache + [id], used + Idless(calls, from, i + 1));
      CachedIds(calls, next, gen, from, used);
      assert CacheIds(calls, next, gen).cache[i] == next.cache[i] == id;
    }
  }

  lemma {:induction false} IdlessNone(calls: seq<ToolCall>, from: nat, end: nat)
    requires end <= |calls| && end <= from
    ensures Idless(calls, from, end) == 0
  {
  }

  lemma {:induction false} Cached(calls: seq<ToolCall>, ids: Ids, gen: nat -> string)
    requires |calls| <= |ids.cache|
    ensures CacheIds(calls, ids, gen) == ids
  {
  }

  lemma {:induction false} IdsAreGiven(calls: seq<ToolCall>, ids: Ids, gen: nat -> string)
    ensures var ids' := CacheIds(calls, ids, gen); IdsGiven(calls, ids, gen, WithIds(calls, ids'.cache), ids')
  {
    hide Idless, IdFor, CacheIds;
    var from := |ids.cache|;
    if from <= |calls| {
      IdlessNone(calls, from, from);
      CachedIds(calls, ids, gen, from, ids.used);
    } else {
      IdlessNone(calls, from, |calls|);
      Cached(calls, ids, gen);
    }
  }

  /** `set_tool_call_ids`. */
  method SetToolCallIds(calls: seq<ToolCall>, ids: Ids, gen: nat -> string) returns (calls': seq<ToolCall>, ids': Ids)
    ensures ids' == CacheIds(calls, ids, gen)
    ensures calls' == WithIds(calls, ids'.cache)
    ensures IdsGiven(calls, ids, gen, calls', ids')
  {
    calls', ids' := calls, ids;
    for i := 0 to |calls|
      invariant |calls'| == |calls| && i <= |ids'.cache| && CacheIds(calls, ids', gen) == CacheIds(calls, ids, gen)
      invariant |ids'.cache| == i || ids' == ids
      invariant forall k :: 0 <= k < i ==> calls'[k] == calls[k].(id := ids'.cache[k])
      invariant forall k :: i <= k < |calls| ==> calls'[k] == calls[k]
    {
      if |ids'.cache| <= i {
        var id := calls'[i].id;
        if id == "" {
          id := gen(ids'.used);
          ids' := ids'.(used := ids'.used + 1);
        }
        ids' := ids'.(cache := ids'.cache + [id]);
      }
      calls' := calls'[i := calls'[i].(id := ids'.cache[i])];
    }
    assert calls' == WithIds(calls, ids'.cache);
    IdsAreGiven(calls, ids, gen);
  }

  /** `update_chat_msg` without filtering: an empty parse result is ignored. */
  function Updated(msg: Message, ids: Ids, parsed: Message, gen: nat -> string): (r: (Message, Ids, Outcome<seq<Diff>>))
  {
    if parsed == EMPTY then (msg, ids, Ok([]))
    else
      var ids' := CacheIds(parsed.calls, ids, gen);
      var m := parsed.(calls := WithIds(parsed.calls, ids'.cache));
      (m, ids', Diffs(msg, m))
  }

  // ---------- a whole stream ----------

  predicate Chain(ms: seq<Message>)
  {
    forall i :: 0 <= i < |ms| - 1 ==> Extends(ms[i], ms[i + 1])
  }

  /** The server's message and the client's copy after a stream of parse results; None if a diff throws. */
  function Serve(msg: Message, ids: Ids, client: Message, ms: seq<Message>,
          gen: nat -> string): (r: Option<(Message, Message)>)
    decreases |ms|
  {
    if ms == [] then Some((msg, client))
    else
      var (msg', ids', diffs) := Updated(msg, ids, ms[0], gen);
      if diffs.Err? then None else Serve(msg', ids', ApplyAll(client, diffs.value), ms[1..], gen)
  }

  /** `msg` is the parse result `p` under the cached ids. */
  predicate Tracks(msg: Message, p: Message, ids: Ids)
  {
    |p.calls| <= |ids.cache| && msg == p.(calls := WithIds(p.calls, ids.cache))
  }

  /** Same texts, names and arguments; only the ids may differ. */
  predicate SameButIds(m: Message, p: Message)
  {
    m.content == p.content && m.reasoning == p.reasoning && |m.calls| == |p.calls| &&
    forall i :: 0 <= i < |m.calls| ==>
      m.calls[i].name == p.calls[i].name && m.calls[i].arguments == p.calls[i].arguments
  }

  lemma {:induction false} IdsKeepExtends(p: Message, q: Message, ids: Ids, gen: nat -> string)
    requires Extends(p, q) && |p.calls| <= |ids.cache|
    ensures var cache := CacheIds(q.calls, ids, gen).cache;
            |q.calls| <= |cache| &&
              Extends(p.(calls := WithIds(p.calls, ids.cache)), q.(calls := WithIds(q.calls, cache)))
  {
  }

  lemma {:induction false} UpdateTracks(msg: Message, p: Message, ids: Ids, q: Message, gen: nat -> string)
    requires Tracks(msg, p, ids) && Extends(p, q)
    ensures var (msg', ids', diffs) := Updated(msg, ids, q, gen);
            diffs.Ok? && ApplyAll(msg, diffs.value) == msg' && Tracks(msg', q, ids') && ids.cache <= ids'.cache
  {
    hide Diffs, ApplyAll, CacheIds;
    if q == EMPTY {
      assert p == EMPTY;
      NothingApplied(msg);
    } else {
      IdsKeepExtends(p, q, ids, gen);
      var msg' := q.(calls := WithIds(q.calls, CacheIds(q.calls, ids, gen).cache));
      ReplayExactly(msg, msg');
    }
  }

  lemma {:induction false} NothingApplied(msg: Message)
    ensures ApplyAll(msg, []) == msg
  {
  }

  /** Over a whole stream of growing parse results no diff throws, the client always equals the server, both end
      with the last parse result up to ids, and no id the client has seen ever changes. */
  lemma {:induction false} StreamFaithful(msg: Message, p: Message, ids: Ids, ms: seq<Message>, gen: nat -> string)
    requires Tracks(msg, p, ids) && Chain([p] + ms)
    ensures var r := Serve(msg, ids, msg, ms, gen);
            var last := ([p] + ms)[|ms|];
            r.Some? && r.value.0 == r.value.1 && SameButIds(r.value.1, last) &&
            |msg.calls| <= |r.value.1.calls| &&
            forall i :: 0 <= i < |msg.calls| ==> r.value.1.calls[i].id == msg.calls[i].id
    decreases |ms|
  {
    if ms != [] {
      hide Updated, ApplyAll, WithIds, Extends;
      assert ([p] + ms)[0] == p && ([p] + ms)[1] == ms[0];
      UpdateTracks(msg, p, ids, ms[0], gen);
      var (msg', ids', diffs) := Updated(msg, ids, ms[0], gen);
      ChainTail(p, ms);
      StreamFaithful(msg', ms[0], ids', ms[1..], gen);
      assert ([ms[0]] + ms[1..])[|ms| - 1] == ([p] + ms)[|ms|];
      TrackedIds(msg, p, ids, msg', ms[0], ids');
    }
  }

  lemma {:induction false} ChainTail(p: Message, ms: seq<Message>)
    requires ms != [] && Chain([p] + ms)
    ensures Chain([ms[0]] + ms[1..]) && Extends(p, ms[0])
  {
    assert ([p] + ms)[0] == p && ([p] + ms)[1] == ms[0];
    forall i | 0 <= i < |ms| - 1
      ensures Extends(([ms[0]] + ms[1..])[i], ([ms[0]] + ms[1..])[i + 1])
    {
      assert Extends(([p] + ms)[i + 1], ([p] + ms)[i + 2]);
    }
  }

  lemma {:induction false} TrackedIds(msg: Message, p: Message, ids: Ids, msg': Message, q: Message, ids': Ids)
    requires Tracks(msg, p, ids) && Tracks(msg', q, ids') && ids.cache <= ids'.cache && Extends(p, q)
    ensures |msg.calls| <= |msg'.calls|
    ensures forall i :: 0 <= i < |msg.calls| ==> msg'.calls[i].id == msg.calls[i].id
  {
  }
}
