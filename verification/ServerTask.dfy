/** `task_result_state`: the part of the server's task state that streams a message, with the variant that holds a
    tool call's name back until it is complete. */
module ServerTask {
  import opened Wrappers
  import opened Chat

  // ---------- filtering (server-task.cpp, lines 178-230) ----------

  /** What announces a call: its name and id, without arguments. */
  function Header(calls: seq<ToolCall>, i: nat): (d: Diff)
    requires i < |calls|
  {
    Diff("", "", Some(i), ToolCall(calls[i].name, "", calls[i].id))
  }

  const TEXT := Diff("", "", None, NO_CALL)

  /** Whether call `i` is announced before the delta `d`. */
  predicate Due(calls: seq<ToolCall>, i: nat, sent: set<nat>, d: Diff)
    requires i < |calls|
  {
    i !in sent && calls[i].name != "" && (d.index != Some(i) || d.call.arguments != "")
  }

  /** The announcements before the delta `d`, from call `i` on, and the calls announced so far. */
  function Flushed(calls: seq<ToolCall>, i: nat, sent: set<nat>, d: Diff): (r: (seq<Diff>, set<nat>))
    decreases |calls| - i
  {
    if i >= |calls| then ([], sent)
    else if Due(calls, i, sent, d) then
      var rest := Flushed(calls, i + 1, sent + {i}, d);
      ([Header(calls, i)] + rest.0, rest.1)
    else Flushed(calls, i + 1, sent, d)
  }

  /** A delta is about text or about a call of the message, not about both. */
  predicate Inside(calls: seq<ToolCall>, d: Diff)
  {
    d.index.Some? ==> d.index.value < |calls| && d.contentDelta == "" && d.reasoningDelta == ""
  }

  /** What becomes of the delta itself. */
  function Passed(calls: seq<ToolCall>, sent: set<nat>, d: Diff, partial: bool): (r: (seq<Diff>, set<nat>))
    requires Inside(calls, d)
  {
    if d.index.None? then ([d], sent)
    else
      var i := d.index.value;
      if i in sent then
        (if d.call.arguments != "" then [d.(call := ToolCall("", d.call.arguments, ""))] else [], sent)
      else if d.call.arguments != "" || !partial then
        ([d.(call := ToolCall(calls[i].name, d.call.arguments, calls[i].id))], sent + {i})
      else ([], sent)
  }

  predicate AllInside(calls: seq<ToolCall>, diffs: seq<Diff>)
  {
    forall k :: 0 <= k < |diffs| ==> Inside(calls, diffs[k])
  }

  /** One delta: what is sent for it, and the calls announced so far. */
  function Turned(calls: seq<ToolCall>, sent: set<nat>, d: Diff, partial: bool): (r: (seq<Diff>, set<nat>))
    requires Inside(calls, d)
  {
    var flushed := Flushed(calls, 0, sent, d);
    var passed := Passed(calls, flushed.1, d, partial);
    (flushed.0 + passed.0, passed.1)
  }

  function Filtered(calls: seq<ToolCall>, sent: set<nat>, diffs: seq<Diff>, partial: bool): (r: (seq<Diff>, set<nat>))
    requires AllInside(calls, diffs)
    decreases |diffs|
  {
    if diffs == [] then if partial then ([], sent) else Flushed(calls, 0, sent, TEXT)
    else
      var turned := Turned(calls, sent, diffs[0], partial);
      var rest := Filtered(calls, turned.1, diffs[1..], partial);
      (turned.0 + rest.0, rest.1)
  }

  /** The differ's deltas are about calls of the new message. */
  lemma {:induction false} DiffsInside(prv: Message, new_: Message)
    requires Diffs(prv, new_).Ok?
    ensures AllInside(new_.calls, Diffs(prv, new_).value)
  {
    hide StringDiff;
    NewCallsInside(new_.calls, |prv.calls|);
  }

  lemma {:induction false} NewCallsInside(calls: seq<ToolCall>, idx: nat)
    ensures AllInside(calls, NewCalls(calls, idx))
    decreases |calls| - idx
  {
    if idx < |calls| { NewCallsInside(calls, idx + 1); }
  }

  // ---------- the task state ----------

  /** `update_chat_msg`: the state after a parse result, and what is sent for it. */
  function Received(state: State, parsed: Message, partial: bool, filter: bool,
          gen: nat -> string): (r: (State, Outcome<seq<Diff>>))
  {
    var (msg, ids, diffs) := Chat.Updated(state.msg, state.ids, parsed, gen);
    if parsed == EMPTY || !filter || diffs.Err? then (State(msg, ids, state.sent), diffs)
    else
      DiffsInside(state.msg, msg);
      var filtered := Filtered(msg.calls, state.sent, diffs.value, partial);
      (State(msg, ids, filtered.1), Ok(filtered.0))
  }

  datatype State = State(msg: Message, ids: Ids, sent: set<nat>)

  const START := State(EMPTY, Ids([], 0), {})

  class TaskState {
    var chatMsg: Message
    var ids: Ids
    var sent: set<nat>

    constructor ()
      ensures View() == START
    {
      chatMsg, ids, sent := EMPTY, Ids([], 0), {};
    }

    ghost function View(): (s: State)
      reads this
    {
      State(chatMsg, ids, sent)
    }

    method UpdateChatMsg(parsed: Message, partial: bool, filter: bool, gen: nat -> string)
        returns (diffs: Outcome<seq<Diff>>)
      modifies this
      ensures (View(), diffs) == Received(old(View()), parsed, partial, filter, gen)
    {
      hide Diffs, Filtered, CacheIds;
      if parsed == EMPTY {
        diffs := Ok([]);
      } else {
        var calls, ids' := SetToolCallIds(parsed.calls, ids, gen);
        ids := ids';
        var prv := chatMsg;
        chatMsg := parsed.(calls := calls);
        diffs := ComputeDiffs(prv, chatMsg);
        if filter && diffs.Ok? {
          DiffsInside(prv, chatMsg);
          var filtered := FilterDiffs(diffs.value, partial);
          diffs := Ok(filtered);
        }
      }
    }

    /** The loop over the deltas, with the check at the end of the stream. */
    method FilterDiffs(all: seq<Diff>, partial: bool) returns (diffs: seq<Diff>)
      requires AllInside(chatMsg.calls, all)
      modifies this`sent
      ensures (diffs, sent) == Filtered(chatMsg.calls, old(sent), all, partial)
    {
      hide Flushed, Passed;
      diffs := [];
      assert all[0..] == all &&
        [] + Filtered(chatMsg.calls, sent, all, partial).0 == Filtered(chatMsg.calls, sent, all, partial).0;
      for k := 0 to |all|
        invariant var rest := Filtered(chatMsg.calls, sent, all[k..], partial);
                  (diffs + rest.0, rest.1) == Filtered(chatMsg.calls, old(sent), all, partial)
      {
        assert all[k..][1..] == all[k + 1..];
        ghost var before, turned := diffs, Turned(chatMsg.calls, sent, all[k], partial);
        ghost var rest := Filtered(chatMsg.calls, turned.1, all[k + 1..], partial);
        assert before + (turned.0 + rest.0) == before + turned.0 + rest.0;
        var headers := Flush(all[k]);
        var passed := Pass(all[k], partial);
        assert before + (headers + passed) == before + headers + passed;
        diffs := diffs + headers + passed;
      }
      assert all[|all|..] == [];
      if partial {
        assert diffs + [] == diffs;
      } else {
        var headers := Flush(TEXT);
        diffs := diffs + headers;
      }
    }

    /** The loop that announces calls. */
    method Flush(d: Diff) returns (headers: seq<Diff>)
      modifies this`sent
      ensures (headers, sent) == Flushed(chatMsg.calls, 0, old(sent), d)
    {
      headers := [];
      var calls := chatMsg.calls;
      assert [] + Flushed(calls, 0, sent, d).0 == Flushed(calls, 0, sent, d).0;
      for i := 0 to |calls|
        invariant var rest := Flushed(calls, i, sent, d);
                  (headers + rest.0, rest.1) == Flushed(calls, 0, old(sent), d)
      {
        FlushStep(calls, i, sent, d, headers);
        if i !in sent && calls[i].name != "" {
          if d.index != Some(i) || d.call.arguments != "" {
            headers := headers + [Header(calls, i)];
            sent := sent + {i};
          }
        }
      }
      assert headers + [] == headers;
    }

    method Pass(d: Diff, partial: bool) returns (diffs: seq<Diff>)
      requires Inside(chatMsg.calls, d)
      modifies this`sent
      ensures (diffs, sent) == Passed(chatMsg.calls, old(sent), d, partial)
    {
      diffs := [];
      if d.index.None? {
        diffs := [d];
      } else {
        var i := d.index.value;
        if i in sent {
          if d.call.arguments != "" { diffs := [d.(call := ToolCall("", d.call.arguments, ""))]; }
        } else if d.call.arguments != "" || !partial {
          diffs := [d.(call := ToolCall(chatMsg.calls[i].name, d.call.arguments, chatMsg.calls[i].id))];
          sent := sent + {i};
        }
      }
    }
  }

  lemma {:induction false} FlushStep(calls: seq<ToolCall>, i: nat, sent: set<nat>, d: Diff, before: seq<Diff>)
    requires i < |calls|
    ensures var r := Flushed(calls, i, sent, d);
            var sent' := if Due(calls, i, sent, d) then sent + {i} else sent;
            var out := if Due(calls, i, sent, d) then before + [Header(calls, i)] else before;
            (before + r.0, r.1) == (out + Flushed(calls, i + 1, sent', d).0, Flushed(calls, i + 1, sent', d).1)
  {
    if Due(calls, i, sent, d) {
      var rest := Flushed(calls, i + 1, sent + {i}, d).0;
      assert before + ([Header(calls, i)] + rest) == before + [Header(calls, i)] + rest;
    }
  }

  // ---------- every call is announced once, before anything else about it ----------

  /** The first delta about a call announces it; every later one only adds arguments. */
  predicate Orderly(diffs: seq<Diff>, sent: set<nat>)
    decreases |diffs|
  {
    if diffs == [] then true
    else
      var d := diffs[0];
      if d.index.None? then Orderly(diffs[1..], sent)
      else
        (d.index.value in sent ==> d.call.name == "" && d.call.id == "" && d.call.arguments != "") &&
        Orderly(diffs[1..], sent + {d.index.value})
  }

  function Announced(diffs: seq<Diff>, sent: set<nat>): (r: set<nat>)
    ensures sent <= r
    decreases |diffs|
  {
    if diffs == [] then sent
    else Announced(diffs[1..], if diffs[0].index.None? then sent else sent + {diffs[0].index.value})
  }

  lemma {:induction false} OrderlyAppend(a: seq<Diff>, b: seq<Diff>, sent: set<nat>)
    ensures Orderly(a + b, sent) <==> Orderly(a, sent) && Orderly(b, Announced(a, sent))
    ensures Announced(a + b, sent) == Announced(b, Announced(a, sent))
    decreases |a|
  {
    if a == [] {
      assert a + b == b;
    } else {
      assert (a + b)[1..] == a[1..] + b;
      OrderlyAppend(a[1..], b, if a[0].index.None? then sent else sent + {a[0].index.value});
    }
  }

  lemma {:induction false} FlushedOrderly(calls: seq<ToolCall>, i: nat, sent: set<nat>, d: Diff)
    ensures var r := Flushed(calls, i, sent, d); Orderly(r.0, sent) && Announced(r.0, sent) == r.1
    decreases |calls| - i
  {
    if i < |calls| {
      if Due(calls, i, sent, d) {
        FlushedOrderly(calls, i + 1, sent + {i}, d);
        assert Flushed(calls, i, sent, d).0[1..] == Flushed(calls, i + 1, sent + {i}, d).0;
      } else {
        FlushedOrderly(calls, i + 1, sent, d);
      }
    }
  }

  lemma {:induction false} PassedOrderly(calls: seq<ToolCall>, sent: set<nat>, d: Diff, partial: bool)
    requires Inside(calls, d)
    ensures var r := Passed(calls, sent, d, partial); Orderly(r.0, sent) && Announced(r.0, sent) == r.1
  {
    var r := Passed(calls, sent, d, partial);
    if r.0 != [] {
      assert r.0[1..] == [];
      if d.index.Some? && d.index.value in sent { assert sent + {d.index.value} == sent; }
    }
  }

  lemma {:induction false} FilteredOrderly(calls: seq<ToolCall>, sent: set<nat>, diffs: seq<Diff>, partial: bool)
    requires AllInside(calls, diffs)
    ensures var r := Filtered(calls, sent, diffs, partial); Orderly(r.0, sent) && Announced(r.0, sent) == r.1
    decreases |diffs|
  {
    hide Flushed, Passed, Orderly, Announced;
    if diffs == [] {
      FlushedOrderly(calls, 0, sent, TEXT);
      NothingOrderly(sent);
    } else {
      var flushed := Flushed(calls, 0, sent, diffs[0]);
      var passed := Passed(calls, flushed.1, diffs[0], partial);
      FlushedOrderly(calls, 0, sent, diffs[0]);
      PassedOrderly(calls, flushed.1, diffs[0], partial);
      OrderlyAppend(flushed.0, passed.0, sent);
      FilteredOrderly(calls, passed.1, diffs[1..], partial);
      OrderlyAppend(flushed.0 + passed.0, Filtered(calls, passed.1, diffs[1..], partial).0, sent);
    }
  }

  lemma {:induction false} NothingOrderly(sent: set<nat>)
    ensures Orderly([], sent) && Announced([], sent) == sent
  {
  }

  // ---------- a whole stream ----------

  /** The state after a stream of parse results, the last of which is complete, and everything that was sent. */
  function Stream(state: State, ms: seq<Message>, gen: nat -> string): (r: Option<(State, seq<Diff>)>)
    decreases |ms|
  {
    if ms == [] then Some((state, []))
    else
      var (next, diffs) := Received(state, ms[0], |ms| > 1, true, gen);
      if diffs.Err? then None
      else
        var rest := Stream(next, ms[1..], gen);
        if rest.None? then None else Some((rest.value.0, diffs.value + rest.value.1))
  }

  /** Whatever is parsed, over a whole stream every call is announced at most once, and nothing about it is sent
      before. */
  lemma {:induction false} AnnouncedOnce(state: State, ms: seq<Message>, gen: nat -> string)
    requires Stream(state, ms, gen).Some?
    ensures Orderly(Stream(state, ms, gen).value.1, state.sent)
    ensures Announced(Stream(state, ms, gen).value.1, state.sent) == Stream(state, ms, gen).value.0.sent
    decreases |ms|
  {
    hide Orderly, Announced, Filtered, Chat.Updated;
    NothingOrderly(state.sent);
    if ms != [] {
      var (next, diffs) := Received(state, ms[0], |ms| > 1, true, gen);
      ReceivedOrderly(state, ms[0], |ms| > 1, gen);
      AnnouncedOnce(next, ms[1..], gen);
      OrderlyAppend(diffs.value, Stream(next, ms[1..], gen).value.1, state.sent);
    }
  }

  lemma {:induction false} ReceivedOrderly(state: State, parsed: Message, partial: bool, gen: nat -> string)
    requires Received(state, parsed, partial, true, gen).1.Ok?
    ensures var (next, diffs) := Received(state, parsed, partial, true, gen);
            Orderly(diffs.value, state.sent) && Announced(diffs.value, state.sent) == next.sent
  {
    hide Orderly, Announced, Filtered, Diffs, CacheIds;
    var (msg, ids, diffs) := Chat.Updated(state.msg, state.ids, parsed, gen);
    if parsed == EMPTY {
      NothingOrderly(state.sent);
    } else {
      DiffsInside(state.msg, msg);
      FilteredOrderly(msg.calls, state.sent, diffs.value, partial);
    }
  }

  // ---------- a client that gets the filtered deltas ----------

  function ArgumentsAt(calls: seq<ToolCall>, i: nat): (text: string)
  {
    if i < |calls| then calls[i].arguments else ""
  }

  /** What the client holds of call `i`: nothing before it is announced, and then its name, its id, and the arguments
      a client without filtering would hold. */
  predicate CallInStep(client: seq<ToolCall>, calls: seq<ToolCall>, announced: bool, plain: seq<ToolCall>, i: nat)
    requires i < |calls|
  {
    if announced then
      i < |client| && client[i] == ToolCall(calls[i].name, ArgumentsAt(plain, i), calls[i].id)
    else (i < |client| ==> client[i] == NO_CALL) && ArgumentsAt(plain, i) == ""
  }

  /** The client follows `msg`, of which a client without filtering holds `plain`. */
  predicate InStep(client: Message, msg: Message, sent: set<nat>, plain: Message)
  {
    client.content == plain.content && client.reasoning == plain.reasoning &&
    |client.calls| <= |msg.calls| && |plain.calls| <= |msg.calls| && (forall i :: i in sent ==> i < |msg.calls|) &&
    forall i :: 0 <= i < |msg.calls| ==> CallInStep(client.calls, msg.calls, i in sent, plain.calls, i)
  }

  lemma {:induction false} PadCallsAre(calls: seq<ToolCall>, idx: nat)
    ensures var r := PadCalls(calls, idx);
            |r| == (if idx < |calls| then |calls| else idx + 1) && calls <= r &&
            forall k :: |calls| <= k < |r| ==> r[k] == NO_CALL
    decreases idx + 1 - |calls|
  {
    if idx >= |calls| { PadCallsAre(calls + [NO_CALL], idx); }
  }

  /** A delta of one call, applied. */
  lemma {:induction false} CallApplied(msg: Message, i: nat, call: ToolCall)
    ensures var r := ApplyDiff(msg, Diff("", "", Some(i), call));
            r.content == msg.content && r.reasoning == msg.reasoning &&
            |r.calls| == (if i < |msg.calls| then |msg.calls| else i + 1) &&
            r.calls[i] == UpdateCall(if i < |msg.calls| then msg.calls[i] else NO_CALL, call) &&
            forall k :: 0 <= k < |r.calls| && k != i ==> r.calls[k] == if k < |msg.calls| then msg.calls[k] else NO_CALL
  {
    assert msg.content + "" == msg.content && msg.reasoning + "" == msg.reasoning;
    PadCallsAre(msg.calls, i);
  }

  /** `plain'` holds what `plain` holds and more arguments of call `i`. */
  ghost predicate Adds(plain: Message, plain': Message, i: nat, arguments: string, size: nat)
  {
    plain'.content == plain.content && plain'.reasoning == plain.reasoning && |plain'.calls| <= size &&
    forall k: nat :: ArgumentsAt(plain'.calls, k) == ArgumentsAt(plain.calls, k) + if k == i then arguments else ""
  }

  /** The first delta of a call. */
  lemma {:induction false} AnnounceInStep(client: Message, msg: Message, sent: set<nat>, plain: Message, i: nat,
          arguments: string, plain': Message)
    requires InStep(client, msg, sent, plain) && i < |msg.calls| && i !in sent &&
      Adds(plain, plain', i, arguments, |msg.calls|)
    ensures var d := Diff("", "", Some(i), ToolCall(msg.calls[i].name, arguments, msg.calls[i].id));
            InStep(ApplyDiff(client, d), msg, sent + {i}, plain')
  {
    hide ApplyDiff, ArgumentsAt;
    var call := ToolCall(msg.calls[i].name, arguments, msg.calls[i].id);
    var client' := ApplyDiff(client, Diff("", "", Some(i), call));
    CallApplied(client, i, call);
    forall k | 0 <= k < |msg.calls|
      ensures CallInStep(client'.calls, msg.calls, k in sent + {i}, plain'.calls, k)
    {
      assert CallInStep(client.calls, msg.calls, k in sent, plain.calls, k);
      assert ArgumentsAt(plain'.calls, k) == ArgumentsAt(plain.calls, k) + if k == i then arguments else "";
      assert "" + arguments == arguments && ArgumentsAt(plain.calls, k) + "" == ArgumentsAt(plain.calls, k);
    }
  }

  /** Any later delta of a call: without arguments nothing is applied. */
  lemma {:induction false} MoreInStep(client: Message, msg: Message, sent: set<nat>, plain: Message, i: nat,
          arguments: string, plain': Message)
    requires InStep(client, msg, sent, plain) && i in sent && Adds(plain, plain', i, arguments, |msg.calls|)
    ensures InStep(ApplyDiff(client, Diff("", "", Some(i), ToolCall("", arguments, ""))), msg, sent, plain')
    ensures arguments == "" ==> InStep(client, msg, sent, plain')
  {
    hide ApplyDiff, ArgumentsAt;
    var call := ToolCall("", arguments, "");
    var client' := ApplyDiff(client, Diff("", "", Some(i), call));
    CallApplied(client, i, call);
    assert CallInStep(client.calls, msg.calls, true, plain.calls, i);
    forall k | 0 <= k < |msg.calls|
      ensures CallInStep(client'.calls, msg.calls, k in sent, plain'.calls, k)
      ensures arguments == "" ==> CallInStep(client.calls, msg.calls, k in sent, plain'.calls, k)
    {
      assert CallInStep(client.calls, msg.calls, k in sent, plain.calls, k);
      assert ArgumentsAt(plain'.calls, k) == ArgumentsAt(plain.calls, k) + if k == i then arguments else "";
      assert ArgumentsAt(plain.calls, k) + "" == ArgumentsAt(plain.calls, k);
    }
  }

  /** A delta without arguments for a call that is not announced yet is held back. */
  lemma {:induction false} HeldInStep(client: Message, msg: Message, sent: set<nat>, plain: Message, i: nat,
          plain': Message)
    requires InStep(client, msg, sent, plain) && Adds(plain, plain', i, "", |msg.calls|)
    ensures InStep(client, msg, sent, plain')
  {
    hide ArgumentsAt;
    forall k | 0 <= k < |msg.calls|
      ensures CallInStep(client.calls, msg.calls, k in sent, plain'.calls, k)
    {
      assert CallInStep(client.calls, msg.calls, k in sent, plain.calls, k);
      assert ArgumentsAt(plain'.calls, k) == ArgumentsAt(plain.calls, k) + "" == ArgumentsAt(plain.calls, k);
    }
  }

  lemma {:induction false} AddsNothing(plain: Message, i: nat, size: nat)
    requires |plain.calls| <= size
    ensures Adds(plain, plain, i, "", size)
  {
    forall k: nat
      ensures ArgumentsAt(plain.calls, k) == ArgumentsAt(plain.calls, k) + if k == i then "" else ""
    {
      assert ArgumentsAt(plain.calls, k) + "" == ArgumentsAt(plain.calls, k);
    }
  }

  lemma {:induction false} PlainAdds(plain: Message, i: nat, call: ToolCall, size: nat)
    requires |plain.calls| <= size && i < size
    ensures Adds(plain, ApplyDiff(plain, Diff("", "", Some(i), call)), i, call.arguments, size)
  {
    hide ApplyDiff;
    CallApplied(plain, i, call);
    var plain' := ApplyDiff(plain, Diff("", "", Some(i), call));
    forall k: nat
      ensures ArgumentsAt(plain'.calls, k) == ArgumentsAt(plain.calls, k) + if k == i then call.arguments else ""
    {
      assert ArgumentsAt(plain.calls, k) + "" == ArgumentsAt(plain.calls, k);
      assert "" + call.arguments == call.arguments;
    }
  }

  lemma {:induction false} FlushInStep(client: Message, msg: Message, sent: set<nat>, plain: Message, i: nat, d: Diff)
    requires InStep(client, msg, sent, plain)
    ensures var r := Flushed(msg.calls, i, sent, d); InStep(ApplyAll(client, r.0), msg, r.1, plain)
    decreases |msg.calls| - i
  {
    hide InStep, ApplyDiff, Adds;
    if i < |msg.calls| {
      if Due(msg.calls, i, sent, d) {
        var header := Header(msg.calls, i);
        assert |plain.calls| <= |msg.calls| by { PlainFits(client, msg, sent, plain); }
        AddsNothing(plain, i, |msg.calls|);
        AnnounceInStep(client, msg, sent, plain, i, "", plain);
        FlushInStep(ApplyDiff(client, header), msg, sent + {i}, plain, i + 1, d);
        var rest := Flushed(msg.calls, i + 1, sent + {i}, d).0;
        assert ([header] + rest)[1..] == rest;
      } else {
        FlushInStep(client, msg, sent, plain, i + 1, d);
      }
    }
  }

  lemma {:induction false} PlainFits(client: Message, msg: Message, sent: set<nat>, plain: Message)
    requires InStep(client, msg, sent, plain)
    ensures |plain.calls| <= |msg.calls|
  {
  }

  lemma {:induction false} PassInStep(client: Message, msg: Message, sent: set<nat>, plain: Message, d: Diff,
          partial: bool)
    requires InStep(client, msg, sent, plain) && Inside(msg.calls, d)
    ensures var r := Passed(msg.calls, sent, d, partial);
            InStep(ApplyAll(client, r.0), msg, r.1, ApplyDiff(plain, d))
  {
    var r := Passed(msg.calls, sent, d, partial);
    AtMostOne(client, r.0);
    if d.index.None? {
      TextInStep(client, msg, sent, plain, d);
    } else {
      hide InStep, ApplyDiff, Adds, ApplyAll;
      var i := d.index.value;
      PlainFits(client, msg, sent, plain);
      assert d == Diff("", "", Some(i), d.call);
      PlainAdds(plain, i, d.call, |msg.calls|);
      if i in sent {
        MoreInStep(client, msg, sent, plain, i, d.call.arguments, ApplyDiff(plain, d));
      } else if d.call.arguments != "" || !partial {
        AnnounceInStep(client, msg, sent, plain, i, d.call.arguments, ApplyDiff(plain, d));
      } else {
        HeldInStep(client, msg, sent, plain, i, ApplyDiff(plain, d));
      }
    }
  }

  lemma {:induction false} TextInStep(client: Message, msg: Message, sent: set<nat>, plain: Message, d: Diff)
    requires InStep(client, msg, sent, plain) && d.index.None?
    ensures InStep(ApplyDiff(client, d), msg, sent, ApplyDiff(plain, d))
  {
  }

  lemma {:induction false} FilteredInStep(client: Message, msg: Message, sent: set<nat>, plain: Message,
          diffs: seq<Diff>, partial: bool)
    requires InStep(client, msg, sent, plain) && AllInside(msg.calls, diffs)
    ensures var r := Filtered(msg.calls, sent, diffs, partial);
            InStep(ApplyAll(client, r.0), msg, r.1, ApplyAll(plain, diffs))
    decreases |diffs|
  {
    hide InStep, ApplyDiff, Flushed, Passed;
    if diffs == [] {
      FlushInStep(client, msg, sent, plain, 0, TEXT);
      NothingApplied(client);
    } else {
      var flushed := Flushed(msg.calls, 0, sent, diffs[0]);
      var passed := Passed(msg.calls, flushed.1, diffs[0], partial);
      FlushInStep(client, msg, sent, plain, 0, diffs[0]);
      var client1 := ApplyAll(client, flushed.0);
      PassInStep(client1, msg, flushed.1, plain, diffs[0], partial);
      var client2 := ApplyAll(client1, passed.0);
      FilteredInStep(client2, msg, passed.1, ApplyDiff(plain, diffs[0]), diffs[1..], partial);
      ApplyAppend(client, flushed.0, passed.0);
      ApplyAppend(client, flushed.0 + passed.0, Filtered(msg.calls, passed.1, diffs[1..], partial).0);
    }
  }

  // ---------- what it takes for that client to catch up ----------

  /** At the end of the stream every call with a name is announced. */
  lemma {:induction false} FlushedAll(calls: seq<ToolCall>, i: nat, sent: set<nat>, k: nat)
    requires i <= k < |calls| && calls[k].name != ""
    ensures k in Flushed(calls, i, sent, TEXT).1
    decreases |calls| - i
  {
    FlushedMore(calls, i + 1, if Due(calls, i, sent, TEXT) then sent + {i} else sent, TEXT);
    if i < k { FlushedAll(calls, i + 1, if Due(calls, i, sent, TEXT) then sent + {i} else sent, k); }
  }

  lemma {:induction false} FlushedMore(calls: seq<ToolCall>, i: nat, sent: set<nat>, d: Diff)
    ensures sent <= Flushed(calls, i, sent, d).1
    decreases |calls| - i
  {
    if i < |calls| { FlushedMore(calls, i + 1, if Due(calls, i, sent, d) then sent + {i} else sent, d); }
  }

  lemma {:induction false} FilteredAll(calls: seq<ToolCall>, sent: set<nat>, diffs: seq<Diff>, k: nat)
    requires AllInside(calls, diffs) && k < |calls| && calls[k].name != ""
    ensures k in Filtered(calls, sent, diffs, false).1
    decreases |diffs|
  {
    hide Flushed, Passed;
    if diffs == [] {
      FlushedAll(calls, 0, sent, k);
    } else {
      FilteredAll(calls, Turned(calls, sent, diffs[0], false).1, diffs[1..], k);
    }
  }

  /** A client in step that has heard of every call has the message. */
  lemma {:induction false} CaughtUp(client: Message, msg: Message, sent: set<nat>)
    requires InStep(client, msg, sent, msg) && forall i :: 0 <= i < |msg.calls| ==> i in sent
    ensures client == msg
  {
    forall i | 0 <= i < |msg.calls|
      ensures i < |client.calls| && client.calls[i] == msg.calls[i]
    {
      assert i in sent && CallInStep(client.calls, msg.calls, i in sent, msg.calls, i);
    }
    if msg.calls != [] {
      var n := |msg.calls| - 1;
      assert n in sent && CallInStep(client.calls, msg.calls, n in sent, msg.calls, n);
    }
    assert client.calls == msg.calls;
  }

  /** A new message with the same names for the calls that are announced. */
  lemma {:induction false} NextInStep(client: Message, msg: Message, sent: set<nat>, msg': Message)
    requires InStep(client, msg, sent, msg) && |msg.calls| <= |msg'.calls|
    requires forall i :: 0 <= i < |msg.calls| ==> msg'.calls[i].id == msg.calls[i].id
    requires forall i :: i in sent && i < |msg.calls| ==> msg'.calls[i].name == msg.calls[i].name
    ensures InStep(client, msg', sent, msg)
  {
    forall i | 0 <= i < |msg'.calls|
      ensures CallInStep(client.calls, msg'.calls, i in sent, msg.calls, i)
    {
      if i < |msg.calls| { assert CallInStep(client.calls, msg.calls, i in sent, msg.calls, i); }
    }
  }

  /** The client holds a shorter name of a call that is announced. */
  predicate StaleAt(client: Message, msg: Message, sent: set<nat>, i: nat)
  {
    i in sent && i < |client.calls| && i < |msg.calls| && client.calls[i].name < msg.calls[i].name
  }

  /** Deltas that do not name call `i` leave its name. */
  lemma {:induction false} NameKept(client: Message, diffs: seq<Diff>, sent: set<nat>, i: nat)
    requires Orderly(diffs, sent) && i in sent && i < |client.calls|
    ensures var r := ApplyAll(client, diffs); i < |r.calls| && r.calls[i].name == client.calls[i].name
    decreases |diffs|
  {
    if diffs != [] {
      hide ApplyDiff;
      DiffKeepsName(client, diffs[0], i);
      NameKept(ApplyDiff(client, diffs[0]), diffs[1..],
               if diffs[0].index.None? then sent else sent + {diffs[0].index.value}, i);
    }
  }

  lemma {:induction false} DiffKeepsName(client: Message, d: Diff, i: nat)
    requires i < |client.calls| && (d.index == Some(i) ==> d.call.name == "")
    ensures var r := ApplyDiff(client, d); i < |r.calls| && r.calls[i].name == client.calls[i].name
  {
    if d.index.Some? { PadCallsAre(client.calls, d.index.value); }
  }

  /** No call that is announced is renamed by the next parse result. */
  predicate KeepsNames(state: State, parsed: Message)
  {
    forall i :: i in state.sent && i < |state.msg.calls| && i < |parsed.calls| ==>
      state.msg.calls[i].name == parsed.calls[i].name
  }

  /** One parse result: a client in step stays in step exactly if no announced call is renamed, and otherwise it is left
      with a name that is too short. */
  lemma {:induction false} ReceivedExactly(state: State, p: Message, q: Message, partial: bool, client: Message,
          gen: nat -> string)
    requires Tracks(state.msg, p, state.ids) && Extends(p, q) && InStep(client, state.msg, state.sent, state.msg)
    ensures var (next, diffs) := Received(state, q, partial, true, gen);
            diffs.Ok? && Tracks(next.msg, q, next.ids) &&
            (KeepsNames(state, q) ==> InStep(ApplyAll(client, diffs.value), next.msg, next.sent, next.msg)) &&
            (!KeepsNames(state, q) ==> exists i :: StaleAt(ApplyAll(client, diffs.value), next.msg, next.sent, i)) &&
            (!partial ==> forall i :: 0 <= i < |q.calls| && q.calls[i].name != "" ==> i in next.sent)
  {
    hide Diffs, CacheIds, Filtered, ApplyAll, InStep, StaleAt, Orderly, Announced;
    UpdateTracks(state.msg, p, state.ids, q, gen);
    var (next, diffs) := Received(state, q, partial, true, gen);
    if q == EMPTY {
      NothingApplied(client);
    } else {
      var all := Chat.Updated(state.msg, state.ids, q, gen).2.value;
      DiffsInside(state.msg, next.msg);
      TrackedIds(state.msg, p, state.ids, next.msg, q, next.ids);
      if KeepsNames(state, q) {
        NextInStep(client, state.msg, state.sent, next.msg);
        FilteredInStep(client, next.msg, state.sent, state.msg, all, partial);
      } else {
        FilteredOrderly(next.msg.calls, state.sent, all, partial);
        var i :| i in state.sent && i < |state.msg.calls| && i < |q.calls| &&
          state.msg.calls[i].name != q.calls[i].name;
        BecomesStale(state, p, q, client, next.msg, diffs.value, i);
      }
      if !partial {
        forall i | 0 <= i < |q.calls| && q.calls[i].name != ""
          ensures i in next.sent
        {
          FilteredAll(next.msg.calls, state.sent, all, i);
        }
      }
    }
  }

  lemma {:induction false} BecomesStale(state: State, p: Message, q: Message, client: Message, msg': Message,
          diffs: seq<Diff>, i: nat)
    requires Tracks(state.msg, p, state.ids) && Extends(p, q) && InStep(client, state.msg, state.sent, state.msg)
    requires i in state.sent && i < |p.calls| && state.msg.calls[i].name != q.calls[i].name
    requires Orderly(diffs, state.sent)
    requires |msg'.calls| == |q.calls| && msg'.calls[i].name == q.calls[i].name
    ensures StaleAt(ApplyAll(client, diffs), msg', Announced(diffs, state.sent), i)
  {
    assert CallInStep(client.calls, state.msg.calls, true, state.msg.calls, i);
    NameKept(client, diffs, state.sent, i);
  }

  /** A name that is too short stays too short. */
  lemma {:induction false} StaysStale(state: State, p: Message, q: Message, partial: bool, client: Message,
          gen: nat -> string, i: nat)
    requires Tracks(state.msg, p, state.ids) && Extends(p, q) && StaleAt(client, state.msg, state.sent, i)
    ensures var (next, diffs) := Received(state, q, partial, true, gen);
            diffs.Ok? && Tracks(next.msg, q, next.ids) &&
            StaleAt(ApplyAll(client, diffs.value), next.msg, next.sent, i)
  {
    hide Diffs, CacheIds, Filtered, ApplyAll, Orderly, Announced;
    UpdateTracks(state.msg, p, state.ids, q, gen);
    var (next, diffs) := Received(state, q, partial, true, gen);
    ReceivedOrderly(state, q, partial, gen);
    NameKept(client, diffs.value, state.sent, i);
    assert q != EMPTY;
    assert next.msg.calls[i].name == q.calls[i].name && state.msg.calls[i].name == p.calls[i].name;
    assert p.calls[i].name <= q.calls[i].name;
  }

  // ---------- announcements, told from the parse results alone ----------

  /** Call `j` is new, or it was the last one and its name or arguments changed. */
  predicate Moved(p: Message, q: Message, j: nat)
  {
    |p.calls| <= j < |q.calls| ||
    (j + 1 == |p.calls| <= |q.calls| &&
     (p.calls[j].name != q.calls[j].name || p.calls[j].arguments != q.calls[j].arguments))
  }

  predicate ArgumentsMoved(p: Message, q: Message, j: nat)
  {
    ArgumentsAt(p.calls, j) != ArgumentsAt(q.calls, j)
  }

  /** Parsing `q` after `p` announces call `i`: it has a name and something else moved or the stream ends, or it moved
      itself and has got arguments or the stream ends. */
  predicate Heard(p: Message, q: Message, partial: bool, i: nat)
    requires i < |q.calls|
  {
    (q.calls[i].name != "" &&
     (!partial || p.content != q.content || p.reasoning != q.reasoning ||
      exists j :: 0 <= j < |q.calls| && j != i && Moved(p, q, j))) ||
    (Moved(p, q, i) && (!partial || ArgumentsMoved(p, q, i)))
  }

  function NewlyHeard(p: Message, q: Message, partial: bool): (r: set<nat>)
  {
    set i: nat | i < |q.calls| && Heard(p, q, partial, i)
  }

  /** The delta announces call `k`. */
  predicate Announces(calls: seq<ToolCall>, d: Diff, partial: bool, k: nat)
  {
    k < |calls| && if d.index == Some(k) then d.call.arguments != "" || !partial else calls[k].name != ""
  }

  lemma {:induction false} FlushedSent(calls: seq<ToolCall>, i: nat, sent: set<nat>, d: Diff, k: nat)
    ensures k in Flushed(calls, i, sent, d).1 <==>
            k in sent ||
            (i <= k < |calls| && calls[k].name != "" && (d.index != Some(k) || d.call.arguments != ""))
    decreases |calls| - i
  {
    if i < |calls| { FlushedSent(calls, i + 1, if Due(calls, i, sent, d) then sent + {i} else sent, d, k); }
  }

  lemma {:induction false} TurnedSent(calls: seq<ToolCall>, sent: set<nat>, d: Diff, partial: bool, k: nat)
    requires Inside(calls, d)
    ensures k in Turned(calls, sent, d, partial).1 <==> k in sent || Announces(calls, d, partial, k)
  {
    hide Flushed;
    FlushedSent(calls, 0, sent, d, k);
    if d.index.Some? { FlushedSent(calls, 0, sent, d, d.index.value); }
  }

  lemma {:induction false} FilteredSent(calls: seq<ToolCall>, sent: set<nat>, diffs: seq<Diff>, partial: bool, k: nat)
    requires AllInside(calls, diffs)
    ensures k in Filtered(calls, sent, diffs, partial).1 <==>
            k in sent || (exists d :: d in diffs && Announces(calls, d, partial, k)) ||
            (!partial && k < |calls| && calls[k].name != "")
    decreases |diffs|
  {
    hide Flushed, Turned, Announces;
    if diffs == [] {
      FlushedSent(calls, 0, sent, TEXT, k);
    } else {
      var d, rest := diffs[0], diffs[1..];
      TurnedSent(calls, sent, d, partial, k);
      FilteredSent(calls, Turned(calls, sent, d, partial).1, rest, partial, k);
      assert forall e :: e in diffs <==> e == d || e in rest;
    }
  }

  lemma {:induction false} NewCallsAre(calls: seq<ToolCall>, idx: nat, d: Diff)
    ensures d in NewCalls(calls, idx) <==>
            exists j: nat :: idx <= j < |calls| && d == Diff("", "", Some(j), calls[j])
    decreases |calls| - idx
  {
    if idx < |calls| {
      NewCallsAre(calls, idx + 1, d);
      var first := Diff("", "", Some(idx), calls[idx]);
      assert d in NewCalls(calls, idx) <==> d == first || d in NewCalls(calls, idx + 1);
    }
  }

  /** The id of the call that was last has not changed. */
  predicate SameLastId(p: Message, q: Message)
  {
    |p.calls| <= |q.calls| && (p.calls != [] ==> p.calls[|p.calls| - 1].id == q.calls[|p.calls| - 1].id)
  }

  lemma {:induction false} DiffParts(p: Message, q: Message, d: Diff)
    requires Extends(p, q)
    ensures Diffs(p, q).Ok? && ReasoningDiffs(p, q).Ok? && ContentDiffs(p, q).Ok?
    ensures p.calls != [] ==> CallDiffs(|p.calls| - 1, p.calls[|p.calls| - 1], q.calls[|p.calls| - 1]).Ok?
    ensures d in Diffs(p, q).value <==>
            d in ReasoningDiffs(p, q).value || d in ContentDiffs(p, q).value ||
            (p.calls != [] && d in CallDiffs(|p.calls| - 1, p.calls[|p.calls| - 1], q.calls[|p.calls| - 1]).value) ||
            d in NewCalls(q.calls, |p.calls|)
  {
    hide NewCalls;
    Accepted(p, q);
  }

  /** What a delta of the differ is about. */
  lemma {:induction false} DeltaOf(p: Message, q: Message, d: Diff)
    requires Extends(p, q) && SameLastId(p, q) && Diffs(p, q).Ok? && d in Diffs(p, q).value
    ensures d.index.None? ==> p.content != q.content || p.reasoning != q.reasoning
    ensures d.index.Some? ==>
      Moved(p, q, d.index.value) && (d.call.arguments != "" <==> ArgumentsMoved(p, q, d.index.value))
  {
    hide Diffs, NewCalls;
    DiffParts(p, q, d);
    NewCallsAre(q.calls, |p.calls|, d);
  }

  lemma {:induction false} DeltaFor(p: Message, q: Message, j: nat) returns (d: Diff)
    requires Extends(p, q) && SameLastId(p, q) && Moved(p, q, j)
    ensures Diffs(p, q).Ok? && d in Diffs(p, q).value && d.index == Some(j)
    ensures d.call.arguments != "" <==> ArgumentsMoved(p, q, j)
  {
    hide Diffs, NewCalls;
    if j < |p.calls| {
      Accepted(p, q);
      var last := CallDiffs(j, p.calls[j], q.calls[j]).value;
      d := last[0];
      assert d in last;
    } else {
      d := Diff("", "", Some(j), q.calls[j]);
      NewCallsAre(q.calls, |p.calls|, d);
    }
    DiffParts(p, q, d);
  }

  lemma {:induction false} TextDelta(p: Message, q: Message) returns (d: Diff)
    requires Extends(p, q) && (p.content != q.content || p.reasoning != q.reasoning)
    ensures Diffs(p, q).Ok? && d in Diffs(p, q).value && d.index.None?
  {
    hide Diffs, NewCalls;
    if p.content != q.content {
      d := Diff("", StringDiff(p.content, q.content).value, None, NO_CALL);
    } else {
      d := Diff(StringDiff(p.reasoning, q.reasoning).value, "", None, NO_CALL);
    }
    DiffParts(p, q, d);
  }

  /** The deltas announce exactly the calls that are heard of. */
  lemma {:induction false} DiffsHeard(p: Message, q: Message, partial: bool, k: nat)
    requires Extends(p, q) && SameLastId(p, q) && Diffs(p, q).Ok? && k < |q.calls|
    ensures Heard(p, q, partial, k) <==>
            (exists d :: d in Diffs(p, q).value && Announces(q.calls, d, partial, k)) ||
            (!partial && q.calls[k].name != "")
  {
    hide Diffs, Extends, Moved, ArgumentsMoved, SameLastId;
    forall d | d in Diffs(p, q).value && Announces(q.calls, d, partial, k)
      ensures Heard(p, q, partial, k)
    {
      DeltaOf(p, q, d);
      if d.index.Some? { MovedInside(p, q, d.index.value); }
    }
    if Heard(p, q, partial, k) && !(!partial && q.calls[k].name != "") {
      if Moved(p, q, k) && (!partial || ArgumentsMoved(p, q, k)) {
        var d := DeltaFor(p, q, k);
        assert Announces(q.calls, d, partial, k);
      } else if p.content != q.content || p.reasoning != q.reasoning {
        var d := TextDelta(p, q);
        assert Announces(q.calls, d, partial, k);
      } else {
        var j: nat :| j < |q.calls| && j != k && Moved(p, q, j);
        var d := DeltaFor(p, q, j);
        assert Announces(q.calls, d, partial, k);
      }
    }
  }

  lemma {:induction false} MovedInside(p: Message, q: Message, j: nat)
    requires Moved(p, q, j)
    ensures j < |q.calls|
  {
  }

  /** The calls announced by a parse result, told from the result and the one before. */
  lemma {:induction false} ReceivedSent(state: State, p: Message, q: Message, partial: bool, gen: nat -> string)
    requires Tracks(state.msg, p, state.ids) && Extends(p, q)
    ensures Received(state, q, partial, true, gen).0.sent == state.sent + NewlyHeard(p, q, partial)
  {
    hide Diffs, CacheIds, Filtered, Announces, Heard, Extends;
    UpdateTracks(state.msg, p, state.ids, q, gen);
    var (next, diffs) := Received(state, q, partial, true, gen);
    if q != EMPTY {
      var msg := next.msg;
      var all := Chat.Updated(state.msg, state.ids, q, gen).2.value;
      DiffsInside(state.msg, msg);
      StillExtends(state.msg, p, state.ids, msg, q, next.ids);
      forall k: nat
        ensures k in next.sent <==> k in state.sent + NewlyHeard(p, q, partial)
      {
        FilteredSent(msg.calls, state.sent, all, partial, k);
        if k < |q.calls| {
          DiffsHeard(state.msg, msg, partial, k);
          HeardSame(state.msg, p, state.ids, msg, q, next.ids, partial, k);
        } else {
          NoneAnnounced(msg.calls, all, partial, k);
        }
      }
    }
  }

  lemma {:induction false} NoneAnnounced(calls: seq<ToolCall>, diffs: seq<Diff>, partial: bool, k: nat)
    requires k >= |calls|
    ensures !exists d :: d in diffs && Announces(calls, d, partial, k)
  {
  }

  /** The ids the cache adds change nothing about what extends and what moves. */
  lemma {:induction false} StillExtends(msg: Message, p: Message, ids: Ids, msg': Message, q: Message, ids': Ids)
    requires Tracks(msg, p, ids) && Tracks(msg', q, ids') && ids.cache <= ids'.cache && Extends(p, q)
    ensures Extends(msg, msg') && SameLastId(msg, msg')
  {
  }

  lemma {:induction false} HeardSame(msg: Message, p: Message, ids: Ids, msg': Message, q: Message, ids': Ids,
          partial: bool, k: nat)
    requires Tracks(msg, p, ids) && Tracks(msg', q, ids') && k < |q.calls|
    ensures Heard(msg, msg', partial, k) <==> Heard(p, q, partial, k)
  {
    assert forall j: nat :: Moved(msg, msg', j) <==> Moved(p, q, j);
    assert forall j: nat :: ArgumentsMoved(msg, msg', j) <==> ArgumentsMoved(p, q, j);
  }

  /** Along the parse results, after `p` and with the calls in `sent` announced, no call is given another name once it
      is announced. */
  predicate NamesSettle(p: Message, sent: set<nat>, ms: seq<Message>)
    decreases |ms|
  {
    ms == [] ||
    ((forall i :: i in sent && i < |p.calls| && i < |ms[0].calls| ==> p.calls[i].name == ms[0].calls[i].name) &&
     NamesSettle(ms[0], sent + NewlyHeard(p, ms[0], |ms| > 1), ms[1..]))
  }

  predicate AllNamed(msg: Message) { forall i :: 0 <= i < |msg.calls| ==> msg.calls[i].name != "" }

  lemma {:induction false} StreamStale(state: State, p: Message, ms: seq<Message>, client: Message,
          gen: nat -> string, i: nat)
    requires Tracks(state.msg, p, state.ids) && Chain([p] + ms) && StaleAt(client, state.msg, state.sent, i)
    ensures var r := Stream(state, ms, gen);
            r.Some? && StaleAt(ApplyAll(client, r.value.1), r.value.0.msg, r.value.0.sent, i) &&
            SameButIds(r.value.0.msg, ([p] + ms)[|ms|])
    decreases |ms|
  {
    hide StaleAt, Received, Extends, ApplyAll;
    NothingApplied(client);
    if ms != [] {
      ChainTail(p, ms);
      StaysStale(state, p, ms[0], |ms| > 1, client, gen, i);
      var (next, diffs) := Received(state, ms[0], |ms| > 1, true, gen);
      StreamStale(next, ms[0], ms[1..], ApplyAll(client, diffs.value), gen, i);
      ApplyAppend(client, diffs.value, Stream(next, ms[1..], gen).value.1);
      assert ([ms[0]] + ms[1..])[|ms| - 1] == ([p] + ms)[|ms|];
    }
  }

  /** Over a whole stream of growing parse results that ends with names for all calls, a client that gets only the
      filtered deltas ends with the server's message, names, ids and arguments included, if and only if no call was
      renamed after it was announced. */
  lemma {:induction false} FilteredExactly(state: State, p: Message, ms: seq<Message>, client: Message,
          gen: nat -> string)
    requires Tracks(state.msg, p, state.ids) && Chain([p] + ms) && ms != []
    requires InStep(client, state.msg, state.sent, state.msg) && AllNamed(ms[|ms| - 1])
    ensures var r := Stream(state, ms, gen);
            r.Some? && SameButIds(r.value.0.msg, ms[|ms| - 1]) &&
            (ApplyAll(client, r.value.1) == r.value.0.msg <==> NamesSettle(p, state.sent, ms))
    decreases |ms|
  {
    hide InStep, StaleAt, Received, Extends, ApplyAll, KeepsNames, AllNamed, NewlyHeard;
    ChainTail(p, ms);
    ReceivedExactly(state, p, ms[0], |ms| > 1, client, gen);
    ReceivedSent(state, p, ms[0], |ms| > 1, gen);
    NamesTracked(state, p, ms[0]);
    var (next, diffs) := Received(state, ms[0], |ms| > 1, true, gen);
    var client' := ApplyAll(client, diffs.value);
    var rest := ms[1..];
    if !KeepsNames(state, ms[0]) {
      var i :| StaleAt(client', next.msg, next.sent, i);
      StreamStale(next, ms[0], rest, client', gen, i);
      ApplyAppend(client, diffs.value, Stream(next, rest, gen).value.1);
      assert ([ms[0]] + rest)[|rest|] == ms[|ms| - 1];
      StaleDiffers(ApplyAll(client', Stream(next, rest, gen).value.1), Stream(next, rest, gen).value.0, i);
    } else if rest == [] {
      AllAnnounced(next, ms[0]);
      CaughtUp(client', next.msg, next.sent);
      assert diffs.value + [] == diffs.value;
    } else {
      assert rest[|rest| - 1] == ms[|ms| - 1];
      FilteredExactly(next, ms[0], rest, client', gen);
      ApplyAppend(client, diffs.value, Stream(next, rest, gen).value.1);
    }
  }

  lemma {:induction false} NamesTracked(state: State, p: Message, q: Message)
    requires Tracks(state.msg, p, state.ids)
    ensures KeepsNames(state, q) <==>
            forall i :: i in state.sent && i < |p.calls| && i < |q.calls| ==> p.calls[i].name == q.calls[i].name
  {
  }

  lemma {:induction false} AllAnnounced(state: State, q: Message)
    requires Tracks(state.msg, q, state.ids) && AllNamed(q)
    requires forall i :: 0 <= i < |q.calls| && q.calls[i].name != "" ==> i in state.sent
    ensures forall i :: 0 <= i < |state.msg.calls| ==> i in state.sent
  {
  }

  lemma {:induction false} StaleDiffers(client: Message, state: State, i: nat)
    requires StaleAt(client, state.msg, state.sent, i)
    ensures client != state.msg
  {
  }

  /** A new client of a new task is in step. */
  lemma {:induction false} StartInStep()
    ensures InStep(EMPTY, START.msg, START.sent, START.msg) && Tracks(START.msg, EMPTY, START.ids)
  {
  }

  /** A name that arrives in two parts, the first beside some text: the client keeps the first part. */
  lemma {:induction false} NameCutShort(gen: nat -> string)
    ensures var ms := [Message("x", "", [ToolCall("get", "", "1")]), Message("x", "", [ToolCall("get_time", "", "1")])];
            Chain([EMPTY] + ms) &&
            var r := Stream(START, ms, gen);
            r.Some? && ApplyAll(EMPTY, r.value.1) != r.value.0.msg
  {
    hide Received, InStep, ApplyAll, Stream;
    var p, q := Message("x", "", [ToolCall("get", "", "1")]), Message("x", "", [ToolCall("get_time", "", "1")]);
    assert "get" <= "get_time" by { assert "get_time"[..3] == "get"; }
    assert Extends(EMPTY, p) && Extends(p, q);
    StartInStep();
    assert 0 in NewlyHeard(EMPTY, p, true) && p.calls[0].name != q.calls[0].name;
    assert [p, q][1..] == [q];
    FilteredExactly(START, EMPTY, [p, q], EMPTY, gen);
  }
}
