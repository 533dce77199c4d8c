/** Which field of the message the Gemma mapper puts a text in, and which node names a call. */
module GemmaFields {
  import opened Wrappers
  import opened Chat
  import opened Gemma

  // ---------- the search ----------

  /** The nodes at most `depth` levels down, each before those below it and after those to its left. */
  function Walk(nodes: seq<Node>, depth: int): (ns: seq<Node>)
    decreases nodes
  {
    if nodes == [] then []
    else [nodes[0]] + (if depth > 1 then Walk(nodes[0].children, depth - 1) else []) + Walk(nodes[1..], depth)
  }

  /** The first of some nodes with a tag. */
  ghost predicate FirstTagged(ns: seq<Node>, tag: Tag, r: Option<Node>)
  {
    match r
    case None => forall i :: 0 <= i < |ns| ==> ns[i].tag != tag
    case Some(n) =>
      exists i :: 0 <= i < |ns| && ns[i] == n && n.tag == tag && forall j :: 0 <= j < i ==> ns[j].tag != tag
  }

  lemma {:induction false} FirstSkips(xs: seq<Node>, ys: seq<Node>, tag: Tag, r: Option<Node>)
    requires FirstTagged(xs, tag, None) && FirstTagged(ys, tag, r)
    ensures FirstTagged(xs + ys, tag, r)
  {
    if r.Some? {
      var i :| 0 <= i < |ys| && ys[i] == r.value && r.value.tag == tag && forall j :: 0 <= j < i ==> ys[j].tag != tag;
      assert (xs + ys)[|xs| + i] == r.value;
    }
  }

  lemma {:induction false} FirstStays(xs: seq<Node>, ys: seq<Node>, tag: Tag, r: Option<Node>)
    requires r.Some? && FirstTagged(xs, tag, r)
    ensures FirstTagged(xs + ys, tag, r)
  {
    var i :| 0 <= i < |xs| && xs[i] == r.value && r.value.tag == tag && forall j :: 0 <= j < i ==> xs[j].tag != tag;
    assert (xs + ys)[i] == r.value;
  }

  /** `find_by_tag` finds the first tagged node of the walk. */
  lemma {:induction false} FindIsFirst(nodes: seq<Node>, tag: Tag, depth: int)
    ensures FirstTagged(Walk(nodes, depth), tag, Find(nodes, tag, depth))
    decreases nodes
  {
    hide FirstTagged;
    if nodes == [] {
      assert FirstTagged([], tag, None) by { NoneTagged(tag); }
    } else {
      var below := if depth > 1 then Walk(nodes[0].children, depth - 1) else [];
      var rest := Walk(nodes[1..], depth);
      assert Walk(nodes, depth) == [nodes[0]] + below + rest;
      if nodes[0].tag == tag {
        OneTagged(nodes[0], tag);
        FirstStays([nodes[0]], below, tag, Some(nodes[0]));
        FirstStays([nodes[0]] + below, rest, tag, Some(nodes[0]));
      } else {
        OneTagged(nodes[0], tag);
        NoneTagged(tag);
        if depth > 1 { FindIsFirst(nodes[0].children, tag, depth - 1); }
        FindIsFirst(nodes[1..], tag, depth);
        var r := if depth > 1 then Find(nodes[0].children, tag, depth - 1) else None;
        FirstSkips([nodes[0]], below, tag, r);
        if r.Some? {
          FirstStays([nodes[0]] + below, rest, tag, r);
        } else {
          FirstSkips([nodes[0]] + below, rest, tag, Find(nodes[1..], tag, depth));
        }
      }
    }
  }

  lemma {:induction false} NoneTagged(tag: Tag)
    ensures FirstTagged([], tag, None)
  {
  }

  lemma {:induction false} OneTagged(n: Node, tag: Tag)
    ensures FirstTagged([n], tag, if n.tag == tag then Some(n) else None)
  {
    assert [n][0] == n;
  }

  // ---------- the visit ----------

  /** The nodes the visit stops at, from left to right. */
  function Stops(nodes: seq<Node>): (ns: seq<Node>)
    decreases nodes
  {
    if nodes == [] then []
    else
      (if nodes[0].tag in {ReasoningTag, ContentTag, ToolTag} then [nodes[0]] else Stops(nodes[0].children)) +
      Stops(nodes[1..])
  }

  /** The texts of the nodes with a tag, one after the other. */
  function Texts(ns: seq<Node>, tag: Tag): (s: string)
  {
    if ns == [] then "" else (if ns[0].tag == tag then ns[0].text else "") + Texts(ns[1..], tag)
  }

  /** The call a tool node makes: named by the first name node of the three levels below it, with the value under the
      first arguments node; none while one of them is missing or the name is incomplete. */
  ghost predicate Makes(n: Node, calls: seq<ToolCall>)
  {
    exists name: Option<Node>, args: Option<Node> ::
      FirstTagged(Walk(n.children, 3), ToolNameTag, name) && FirstTagged(Walk(n.children, 3), ToolArgsTag, args) &&
      if name.None? || args.None? || name.value.partial then calls == []
      else
        |calls| == 1 && calls[0].name == name.value.text && calls[0].id == "" &&
        calls[0].arguments == if args.value.children == [] then "" else ToJson(args.value.children[0])
  }

  /** The calls the tool nodes make, in order. */
  ghost predicate MakesAll(ns: seq<Node>, calls: seq<ToolCall>)
    decreases |ns|
  {
    if ns == [] then calls == []
    else if ns[0].tag != ToolTag then MakesAll(ns[1..], calls)
    else exists k: nat :: k <= |calls| && Makes(ns[0], calls[..k]) && MakesAll(ns[1..], calls[k..])
  }

  function ItemsOf(ns: seq<Node>): (items: seq<Item>)
    requires forall i :: 0 <= i < |ns| ==> ns[i].tag in {ReasoningTag, ContentTag, ToolTag}
  {
    if ns == [] then [] else Items(ns[0]) + ItemsOf(ns[1..])
  }

  lemma {:induction false} StopsTagged(nodes: seq<Node>)
    ensures forall i :: 0 <= i < |Stops(nodes)| ==> Stops(nodes)[i].tag in {ReasoningTag, ContentTag, ToolTag}
    decreases nodes
  {
    if nodes != [] {
      StopsTagged(nodes[0].children);
      StopsTagged(nodes[1..]);
    }
  }

  lemma {:induction false} ItemsAreStops(nodes: seq<Node>)
    ensures (forall i :: 0 <= i < |Stops(nodes)| ==> Stops(nodes)[i].tag in {ReasoningTag, ContentTag, ToolTag}) &&
            ItemsAll(nodes) == ItemsOf(Stops(nodes))
    decreases nodes
  {
    hide ToolItem;
    StopsTagged(nodes);
    if nodes != [] {
      var n := nodes[0];
      StopsTagged(nodes[1..]);
      ItemsAreStops(nodes[1..]);
      if n.tag in {ReasoningTag, ContentTag, ToolTag} {
        assert Stops(nodes)[1..] == Stops(nodes[1..]);
      } else {
        StopsTagged(n.children);
        ItemsAreStops(n.children);
        ItemsOfAppend(Stops(n.children), Stops(nodes[1..]));
      }
    }
  }

  lemma {:induction false} ItemsOfAppend(xs: seq<Node>, ys: seq<Node>)
    requires forall i :: 0 <= i < |xs| ==> xs[i].tag in {ReasoningTag, ContentTag, ToolTag}
    requires forall i :: 0 <= i < |ys| ==> ys[i].tag in {ReasoningTag, ContentTag, ToolTag}
    ensures ItemsOf(xs + ys) == ItemsOf(xs) + ItemsOf(ys)
    decreases |xs|
  {
    hide Items;
    if xs == [] {
      assert xs + ys == ys;
    } else {
      assert (xs + ys)[1..] == xs[1..] + ys;
      ItemsOfAppend(xs[1..], ys);
    }
  }

  /** The mapper adds the texts of the reasoning and content nodes it reaches to the fields of these names, in order,
      and the calls of the tool nodes to the calls. */
  lemma {:induction false} FieldsOf(msg: Message, nodes: seq<Node>)
    ensures var r := VisitAll(msg, ItemsAll(nodes));
            r.reasoning == msg.reasoning + Texts(Stops(nodes), ReasoningTag) &&
            r.content == msg.content + Texts(Stops(nodes), ContentTag) &&
            msg.calls <= r.calls && MakesAll(Stops(nodes), r.calls[|msg.calls|..])
  {
    hide *;
    ItemsAreStops(nodes);
    FieldsOfStops(msg, Stops(nodes));
  }

  lemma {:induction false} FieldsOfStops(msg: Message, ns: seq<Node>)
    requires forall i :: 0 <= i < |ns| ==> ns[i].tag in {ReasoningTag, ContentTag, ToolTag}
    ensures var r := VisitAll(msg, ItemsOf(ns));
            r.reasoning == msg.reasoning + Texts(ns, ReasoningTag) &&
            r.content == msg.content + Texts(ns, ContentTag) &&
            msg.calls <= r.calls && MakesAll(ns, r.calls[|msg.calls|..])
    decreases |ns|
  {
    hide Makes, Items, Visit, ToolItem;
    if ns == [] {
      assert msg.reasoning + "" == msg.reasoning && msg.content + "" == msg.content;
    } else {
      var item := ItemOf(ns[0]);
      var m := Visit(msg, item);
      assert ItemsOf(ns)[0] == item && ItemsOf(ns)[1..] == ItemsOf(ns[1..]);
      FieldsOfStops(m, ns[1..]);
      var r := VisitAll(m, ItemsOf(ns[1..]));
      FieldsOfOne(msg, ns[0], item);
      TextOf(msg.reasoning, ns, ReasoningTag);
      TextOf(msg.content, ns, ContentTag);
      if ns[0].tag == ToolTag { SplitCalls(msg.calls, m.calls, r.calls, ns); }
    }
  }

  lemma {:induction false} ItemOf(n: Node) returns (item: Item)
    requires n.tag in {ReasoningTag, ContentTag, ToolTag}
    ensures Items(n) == [item]
    ensures item == if n.tag == ReasoningTag then Reasoning(n.text) else if n.tag == ContentTag then Content(n.text)
      else ToolItem(n)
  {
    item := Items(n)[0];
  }

  lemma {:induction false} TextOf(front: string, ns: seq<Node>, tag: Tag)
    requires ns != []
    ensures front + Texts(ns, tag) == front + (if ns[0].tag == tag then ns[0].text else "") + Texts(ns[1..], tag)
  {
  }

  lemma {:induction false} FieldsOfOne(msg: Message, n: Node, item: Item)
    requires n.tag in {ReasoningTag, ContentTag, ToolTag} && Items(n) == [item]
    ensures var m := Visit(msg, item);
            m.reasoning == msg.reasoning + (if n.tag == ReasoningTag then n.text else "") &&
            m.content == msg.content + (if n.tag == ContentTag then n.text else "") &&
            msg.calls <= m.calls &&
            if n.tag == ToolTag then Makes(n, m.calls[|msg.calls|..]) else m.calls == msg.calls
  {
    hide Find, Walk, ToJson, FirstTagged;
    if n.tag == ToolTag {
      FindIsFirst(n.children, ToolNameTag, 3);
      FindIsFirst(n.children, ToolArgsTag, 3);
      assert item == ToolItem(n);
      var name, args := Find(n.children, ToolNameTag, 3), Find(n.children, ToolArgsTag, 3);
      var calls := Visit(msg, item).calls[|msg.calls|..];
      assert if name.None? || args.None? || name.value.partial then calls == []
             else
               |calls| == 1 && calls[0].name == name.value.text && calls[0].id == "" &&
               calls[0].arguments == if args.value.children == [] then "" else ToJson(args.value.children[0]);
      assert Makes(n, calls);
    }
  }

  lemma {:induction false} SplitCalls(a: seq<ToolCall>, b: seq<ToolCall>, c: seq<ToolCall>, ns: seq<Node>)
    requires a <= b <= c && ns != [] && ns[0].tag == ToolTag
    requires Makes(ns[0], b[|a|..]) && MakesAll(ns[1..], c[|b|..])
    ensures MakesAll(ns, c[|a|..])
  {
    hide Makes;
    var calls, k := c[|a|..], |b| - |a|;
    assert calls[..k] == b[|a|..] && calls[k..] == c[|b|..];
  }
}
