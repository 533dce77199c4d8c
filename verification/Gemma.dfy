/** `gemma4_to_json`: a parse tree of Gemma 4 tool-call arguments, possibly cut off, printed as JSON, and the
    mapper that puts the text into the message. */
module Gemma {
  import opened Wrappers
  import opened Text
  import opened Chat
  import Json

  datatype Rule =
    | Number | Bool | Null | StringContent | String | Array | KeyName | Key | KeyValue | Dict | Value | Unknown

  datatype Tag = ReasoningTag | ContentTag | ToolTag | ToolNameTag | ToolArgsTag | NoTag

  /** A node of the parse tree: its rule and tag, the text it spans, and whether the input ended inside it. */
  datatype Node = Node(rule: Rule, tag: Tag, text: string, children: seq<Node>, partial: bool)

  /** `gemma4_to_json`. */
  function ToJson(n: Node): (r: string)
    decreases n
  {
    if n.text == "" then ""
    else match n.rule
      case Number => n.text
      case Bool => n.text
      case Null => n.text
      case StringContent => Json.Escape(n.text)
      case String =>
        "\"" + (if n.children == [] then "" else ToJson(n.children[0]) + if n.partial then "" else "\"")
      case Array => "[" + ListToJson(n.children, ",") + if n.partial then "" else "]"
      case KeyName => n.text
      case Key =>
        "\"" + (if n.children == [] then "" else Json.Escape(ToJson(n.children[0]))) + if n.partial then "" else "\":"
      case KeyValue => ListToJson(n.children, "")
      case Dict => "{" + ListToJson(n.children, ",") + if n.partial then "" else "}"
      case Value => if n.children == [] then "" else ToJson(n.children[0])
      case Unknown => ""
  }

  function ListToJson(nodes: seq<Node>, comma: string): (r: string)
    decreases nodes
  {
    if nodes == [] then ""
    else if |nodes| == 1 then ToJson(nodes[0])
    else ToJson(nodes[0]) + comma + ListToJson(nodes[1..], comma)
  }

  // ---------- complete trees ----------

  /** A string of the Gemma syntax. */
  function StringOf(n: Node): (r: Option<string>)
  {
    if n.rule.String? && n.text != "" && !n.partial && |n.children| == 1 && n.children[0].rule.StringContent? then
      Some(n.children[0].text)
    else None
  }

  /** A key of the Gemma syntax. */
  function KeyOf(n: Node): (r: Option<string>)
  {
    if n.rule.Key? && n.text != "" && !n.partial && |n.children| == 1 && n.children[0].rule.KeyName? &&
      n.children[0].text != "" then
      Some(n.children[0].text)
    else None
  }

  /** The value a complete tree stands for; None if the tree is cut off or not one the grammar builds. */
  function Denote(n: Node): (r: Option<Json.Value>)
    decreases n
  {
    if n.text == "" || n.partial then None
    else match n.rule
      case Value => if |n.children| == 1 then Denote(n.children[0]) else None
      case Null => if n.text == "null" then Some(Json.Null) else None
      case Bool => if n.text == "true" || n.text == "false" then Some(Json.Bool(n.text == "true")) else None
      case Number => if Json.IsNumber(n.text) then Some(Json.Number(n.text)) else None
      case String => if StringOf(n).Some? then Some(Json.String(StringOf(n).value)) else None
      case Array =>
        var items := DenoteAll(n.children);
        if items.Some? then Some(Json.Array(items.value)) else None
      case Dict =>
        var members := DenoteMembers(n.children);
        if members.Some? then Some(Json.Object(members.value)) else None
      case _ => None
  }

  function DenoteAll(nodes: seq<Node>): (r: Option<seq<Json.Value>>)
    ensures r.Some? ==> |r.value| == |nodes|
    decreases nodes
  {
    if nodes == [] then Some([])
    else
      var v, rest := Denote(nodes[0]), DenoteAll(nodes[1..]);
      if v.Some? && rest.Some? then Some([v.value] + rest.value) else None
  }

  function DenoteMembers(nodes: seq<Node>): (r: Option<seq<Json.Member>>)
    ensures r.Some? ==> |r.value| == |nodes|
    decreases nodes
  {
    if nodes == [] then Some([])
    else
      var kv := nodes[0];
      if !kv.rule.KeyValue? || kv.text == "" || |kv.children| != 2 then None
      else
        var k, v, rest := KeyOf(kv.children[0]), Denote(kv.children[1]), DenoteMembers(nodes[1..]);
        if k.Some? && v.Some? && rest.Some? then Some([Json.Member(k.value, v.value)] + rest.value) else None
  }

  lemma {:induction false} PrintsItems(nodes: seq<Node>)
    requires DenoteAll(nodes).Some?
    ensures ListToJson(nodes, ",") == Json.PrintItems(DenoteAll(nodes).value)
    ensures forall i :: 0 <= i < |nodes| ==> Json.Printable(DenoteAll(nodes).value[i])
    decreases nodes, 0
  {
    hide ToJson, Denote, Json.Print, Json.Printable;
    if nodes != [] {
      Prints(nodes[0]);
      PrintsItems(nodes[1..]);
      var vs := DenoteAll(nodes).value;
      assert vs[1..] == DenoteAll(nodes[1..]).value;
    }
  }

  lemma {:induction false} PrintsMember(kv: Node)
    requires kv.rule.KeyValue? && kv.text != "" && |kv.children| == 2 && KeyOf(kv.children[0]).Some? &&
      Denote(kv.children[1]).Some?
    ensures ToJson(kv) == Json.PrintMember(Json.Member(KeyOf(kv.children[0]).value, Denote(kv.children[1]).value))
    ensures Json.Printable(Denote(kv.children[1]).value)
    decreases kv
  {
    hide Denote, Json.Print, Json.Printable, Json.Escape;
    Prints(kv.children[1]);
    var key, value := kv.children[0], ToJson(kv.children[1]);
    var name := key.children[0].text;
    assert ToJson(key) == "\"" + Json.Escape(name) + "\":" by { assert ToJson(key.children[0]) == name; }
    assert kv.children[1..] == [kv.children[1]];
    assert ListToJson(kv.children, "") == ToJson(key) + "" + value;
    assert "\"" + Json.Escape(name) + "\":" + "" + value == "\"" + Json.Escape(name) + "\"" + ":" + value;
  }

  lemma {:induction false} PrintsMembers(nodes: seq<Node>)
    requires DenoteMembers(nodes).Some?
    ensures ListToJson(nodes, ",") == Json.PrintMembers(DenoteMembers(nodes).value)
    ensures forall i :: 0 <= i < |nodes| ==> Json.Printable(DenoteMembers(nodes).value[i].value)
    decreases nodes, 0
  {
    hide ToJson, Denote, KeyOf, Json.PrintMember, Json.Printable;
    if nodes != [] {
      PrintsMember(nodes[0]);
      PrintsMembers(nodes[1..]);
      var ms := DenoteMembers(nodes).value;
      assert ms[1..] == DenoteMembers(nodes[1..]).value;
    }
  }

  lemma {:induction false} Prints(n: Node)
    requires Denote(n).Some?
    ensures ToJson(n) == Json.Print(Denote(n).value) && Json.Printable(Denote(n).value)
    decreases n, 1
  {
    hide ListToJson, DenoteAll, DenoteMembers, Json.Escape, Json.IsNumber, Json.PrintItems, Json.PrintMembers;
    match n.rule
    case Value => Prints(n.children[0]);
    case Array => PrintsItems(n.children);
    case Dict => PrintsMembers(n.children);
    case String =>
      PrintsContent(n.children[0]);
      var text := n.children[0].text;
      assert "\"" + (Json.Escape(text) + "\"") == "\"" + Json.Escape(text) + "\"";
    case _ =>
  }

  lemma {:induction false} PrintsContent(n: Node)
    requires n.rule.StringContent?
    ensures ToJson(n) == Json.Escape(n.text)
  {
  }

  /** A complete tree is printed as JSON that reads back as the value the tree stands for. */
  lemma {:induction false} CompleteReadsBack(n: Node)
    requires Denote(n).Some?
    ensures Json.Parse(ToJson(n)) == Denote(n)
  {
    hide ToJson, Denote, Json.Print, Json.Parse, Json.Printable;
    Prints(n);
    Json.ParsePrinted(Denote(n).value);
  }

  // ---------- trees that are cut off ----------

  /** `b` is a later tree for the same place: a node that was complete is the same, one the input ended in may
      have become longer. The content of a string and the name of a key grow until the node around them is
      complete; a node without text may become anything. */
  predicate Completes(a: Node, b: Node)
    decreases a
  {
    a == b || a.text == "" ||
    (a.rule == b.rule && a.text <= b.text &&
     match a.rule
     case StringContent => true
     case KeyName => true
     case Array => a.partial && CompletesAll(a.children, b.children)
     case Dict => a.partial && CompletesAll(a.children, b.children)
     case KeyValue => a.partial && CompletesAll(a.children, b.children)
     case String => a.partial && CompletesFirst(a.children, b.children)
     case Key => a.partial && CompletesFirst(a.children, b.children)
     case Value => a.partial && CompletesFirst(a.children, b.children)
     case _ => a.partial)
  }

  predicate CompletesFirst(as_: seq<Node>, bs: seq<Node>)
    decreases as_
  {
    as_ == [] || (bs != [] && Completes(as_[0], bs[0]))
  }

  predicate CompletesAll(as_: seq<Node>, bs: seq<Node>)
    decreases as_
  {
    as_ == [] ||
    (bs != [] && if |as_| == 1 then Completes(as_[0], bs[0]) else as_[0] == bs[0] && CompletesAll(as_[1..], bs[1..]))
  }

  lemma {:induction false} PrefixExtend(a: string, b: string, c: string)
    requires a <= b
    ensures a <= b + c
  {
  }

  lemma {:induction false} PrefixOpen(head: string, a: string, b: string, c: string)
    requires a <= b
    ensures head + a + "" <= head + b + c && head + a <= head + (b + c)
  {
    PrefixAppend(head, a, b);
    PrefixAppend(head, a, b + c);
  }

  lemma {:induction false} ListGrows(as_: seq<Node>, bs: seq<Node>, comma: string)
    requires CompletesAll(as_, bs)
    ensures ListToJson(as_, comma) <= ListToJson(bs, comma)
    decreases as_, 0
  {
    hide ToJson, Completes;
    if as_ != [] {
      if |as_| == 1 {
        Grows(as_[0], bs[0]);
        if |bs| > 1 {
          PrefixExtend(ToJson(as_[0]), ToJson(bs[0]), comma);
          PrefixExtend(ToJson(as_[0]), ToJson(bs[0]) + comma, ListToJson(bs[1..], comma));
        }
      } else {
        ListGrows(as_[1..], bs[1..], comma);
        PrefixAppend(ToJson(as_[0]) + comma, ListToJson(as_[1..], comma), ListToJson(bs[1..], comma));
      }
    }
  }

  lemma {:induction false} FirstGrows(as_: seq<Node>, bs: seq<Node>)
    requires CompletesFirst(as_, bs) && as_ != []
    ensures bs != [] && ToJson(as_[0]) <= ToJson(bs[0])
    decreases as_, 0
  {
    Grows(as_[0], bs[0]);
  }

  /** What is printed for a tree is a prefix of what is printed for every completion of it. */
  lemma {:induction false} Grows(a: Node, b: Node)
    requires Completes(a, b)
    ensures ToJson(a) <= ToJson(b)
    decreases a, 1
  {
    hide ListToJson, Json.Escape, CompletesAll;
    if a != b && a.text != "" {
      match a.rule
      case StringContent => Json.EscapeMonotone(a.text, b.text);
      case Array =>
        ListGrows(a.children, b.children, ",");
        PrefixOpen("[", ListToJson(a.children, ","), ListToJson(b.children, ","), if b.partial then "" else "]");
      case Dict =>
        ListGrows(a.children, b.children, ",");
        PrefixOpen("{", ListToJson(a.children, ","), ListToJson(b.children, ","), if b.partial then "" else "}");
      case KeyValue => ListGrows(a.children, b.children, "");
      case String => if a.children != [] { StringGrows(a, b); }
      case Key => KeyGrows(a, b);
      case Value => if a.children != [] { FirstGrows(a.children, b.children); }
      case _ =>
    }
  }

  lemma {:induction false} StringGrows(a: Node, b: Node)
    requires a.rule.String? && b.rule.String? && a.text != "" && b.text != "" && a.partial && a.children != []
    requires CompletesFirst(a.children, b.children)
    ensures ToJson(a) <= ToJson(b)
    decreases a, 0
  {
    hide Completes;
    FirstGrows(a.children, b.children);
    var x, y := ToJson(a.children[0]), ToJson(b.children[0]);
    PrefixOpen("\"", x, y, if b.partial then "" else "\"");
    assert ToJson(a) == "\"" + (x + "") && x + "" == x;
    assert ToJson(b) == "\"" + (y + if b.partial then "" else "\"");
  }

  lemma {:induction false} KeyGrows(a: Node, b: Node)
    requires a.rule.Key? && b.rule.Key? && a.text != "" && b.text != "" && a.partial
    requires CompletesFirst(a.children, b.children)
    ensures ToJson(a) <= ToJson(b)
    decreases a, 0
  {
    hide Completes, Json.Escape;
    var x := if a.children == [] then "" else Json.Escape(ToJson(a.children[0]));
    var y := if b.children == [] then "" else Json.Escape(ToJson(b.children[0]));
    if a.children != [] {
      FirstGrows(a.children, b.children);
      Json.EscapeMonotone(ToJson(a.children[0]), ToJson(b.children[0]));
    }
    PrefixOpen("\"", x, y, if b.partial then "" else "\":");
    assert ToJson(a) == "\"" + x + "";
  }

  // ---------- the mapper ----------

  /** The first node with a tag, in the order of a depth-first walk, no more than `depth` levels down. */
  function Find(nodes: seq<Node>, tag: Tag, depth: int): (r: Option<Node>)
    ensures r.Some? ==> r.value.tag == tag
    decreases nodes
  {
    if nodes == [] then None
    else if nodes[0].tag == tag then Some(nodes[0])
    else
      var below := if depth > 1 then Find(nodes[0].children, tag, depth - 1) else None;
      if below.Some? then below else Find(nodes[1..], tag, depth)
  }

  /** `find_by_tag`. */
  method FindByTag(parent: Node, tag: Tag, maxDepth: int) returns (r: Option<Node>)
    ensures r == Find(parent.children, tag, maxDepth)
    decreases parent
  {
    for i := 0 to |parent.children|
      invariant Find(parent.children[i..], tag, maxDepth) == Find(parent.children, tag, maxDepth)
    {
      var child := parent.children[i];
      assert parent.children[i..][1..] == parent.children[i + 1..];
      if child.tag == tag { return Some(child); }
      if maxDepth > 1 {
        r := FindByTag(child, tag, maxDepth - 1);
        if r.Some? { return; }
      }
    }
    r := None;
  }

  const DEPTH := 3

  /** What the visit makes of the tagged nodes it reaches: texts, and calls with the parts found so far. The name of a
      call is absent while it is incomplete; the value is the tree below the arguments node. */
  datatype Item =
    | Reasoning(text: string)
    | Content(text: string)
    | Tool(name: Option<string>, args: Option<Option<Node>>)

  function ToolItem(n: Node): (item: Item)
  {
    var name, args := Find(n.children, ToolNameTag, DEPTH), Find(n.children, ToolArgsTag, DEPTH);
    Tool(if name.None? || name.value.partial then None else Some(name.value.text),
         if args.None? then None
         else Some(if args.value.children == [] then None else Some(args.value.children[0])))
  }

  function Items(n: Node): (items: seq<Item>)
    decreases n
  {
    match n.tag
    case ReasoningTag => [Reasoning(n.text)]
    case ContentTag => [Content(n.text)]
    case ToolTag => [ToolItem(n)]
    case _ => ItemsAll(n.children)
  }

  function ItemsAll(nodes: seq<Node>): (items: seq<Item>)
    decreases nodes
  {
    if nodes == [] then [] else Items(nodes[0]) + ItemsAll(nodes[1..])
  }

  function Visit(msg: Message, item: Item): (r: Message)
  {
    match item
    case Reasoning(text) => msg.(reasoning := msg.reasoning + text)
    case Content(text) => msg.(content := msg.content + text)
    case Tool(name, args) =>
      if name.None? || args.None? then msg
      else
        var arguments := if args.value.None? then "" else ToJson(args.value.value);
        msg.(calls := msg.calls + [ToolCall(name.value, arguments, "")])
  }

  function VisitAll(msg: Message, items: seq<Item>): (r: Message)
    decreases |items|
  {
    if items == [] then msg else VisitAll(Visit(msg, items[0]), items[1..])
  }

  lemma {:induction false} VisitAllAppend(msg: Message, xs: seq<Item>, ys: seq<Item>)
    ensures VisitAll(msg, xs + ys) == VisitAll(VisitAll(msg, xs), ys)
    decreases |xs|
  {
    hide Visit;
    if xs == [] {
      assert xs + ys == ys;
    } else {
      assert (xs + ys)[1..] == xs[1..] + ys;
      VisitAllAppend(Visit(msg, xs[0]), xs[1..], ys);
    }
  }

  lemma {:induction false} VisitOne(msg: Message, item: Item)
    ensures VisitAll(msg, [item]) == Visit(msg, item)
  {
    hide Visit;
  }

  class GemmaMapper {
    var result: Message

    constructor ()
      ensures result == EMPTY
    {
      result := EMPTY;
    }

    method FromAst(nodes: seq<Node>)
      modifies this
      ensures result == VisitAll(old(result), ItemsAll(nodes))
    {
      hide Items, Visit, VisitAll;
      for i := 0 to |nodes|
        invariant VisitAll(result, ItemsAll(nodes[i..])) == VisitAll(old(result), ItemsAll(nodes))
      {
        assert nodes[i..][1..] == nodes[i + 1..];
        VisitAllAppend(result, Items(nodes[i]), ItemsAll(nodes[i + 1..]));
        VisitNode(nodes[i]);
      }
      VisitNothing(result);
    }

    /** `visit`. */
    method VisitNode(node: Node)
      modifies this
      ensures result == VisitAll(old(result), Items(node))
      decreases node
    {
      hide Visit, VisitAll, Find, ToJson;
      if node.tag == ReasoningTag {
        VisitOne(result, Reasoning(node.text));
        VisitText(result, node.text);
        result := result.(reasoning := result.reasoning + node.text);
      } else if node.tag == ContentTag {
        VisitOne(result, Content(node.text));
        VisitText(result, node.text);
        result := result.(content := result.content + node.text);
      } else if node.tag == ToolTag {
        VisitOne(result, ToolItem(node));
        VisitTool(result, ToolItem(node));
        var name := FindByTag(node, ToolNameTag, DEPTH);
        var args := FindByTag(node, ToolArgsTag, DEPTH);
        if name.Some? && args.Some? {
          if !name.value.partial {
            var call := ToolCall(name.value.text, "", "");
            if args.value.children != [] { call := call.(arguments := ToJson(args.value.children[0])); }
            result := result.(calls := result.calls + [call]);
          }
        }
      } else {
        for i := 0 to |node.children|
          invariant VisitAll(result, ItemsAll(node.children[i..])) == VisitAll(old(result), ItemsAll(node.children))
        {
          assert node.children[i..][1..] == node.children[i + 1..];
          VisitAllAppend(result, Items(node.children[i]), ItemsAll(node.children[i + 1..]));
          VisitNode(node.children[i]);
        }
        VisitNothing(result);
      }
    }
  }

  lemma {:induction false} VisitNothing(msg: Message)
    ensures VisitAll(msg, []) == msg
  {
  }

  lemma {:induction false} VisitText(msg: Message, text: string)
    ensures Visit(msg, Reasoning(text)) == msg.(reasoning := msg.reasoning + text)
    ensures Visit(msg, Content(text)) == msg.(content := msg.content + text)
  {
  }

  lemma {:induction false} VisitTool(msg: Message, item: Item)
    requires item.Tool?
    ensures Visit(msg, item) ==
            if item.name.None? || item.args.None? then msg
            else
              var arguments := if item.args.value.None? then "" else ToJson(item.args.value.value);
              msg.(calls := msg.calls + [ToolCall(item.name.value, arguments, "")])
  {
    hide ToJson;
  }

  predicate ItemGrown(a: Item, b: Item)
  {
    match a
    case Reasoning(text) => b.Reasoning? && text <= b.text
    case Content(text) => b.Content? && text <= b.text
    case Tool(name, args) =>
      b.Tool? && (name.Some? ==> b.name == name) && (args.Some? ==> b.args.Some?) &&
      (args.Some? && args.value.Some? ==> b.args.value.Some? && Completes(args.value.value, b.args.value.value))
  }

  predicate ItemsGrown(as_: seq<Item>, bs: seq<Item>)
    decreases |as_|
  {
    as_ == [] ||
    (bs != [] && if |as_| == 1 then ItemGrown(as_[0], bs[0]) else as_[0] == bs[0] && ItemsGrown(as_[1..], bs[1..]))
  }

  lemma {:induction false} VisitExtends(msg: Message, item: Item)
    ensures Extends(msg, Visit(msg, item))
  {
    hide ToJson;
  }

  lemma {:induction false} VisitAllExtends(msg: Message, items: seq<Item>)
    ensures Extends(msg, VisitAll(msg, items))
    decreases |items|
  {
    if items != [] {
      VisitExtends(msg, items[0]);
      hide Visit, Extends;
      var m := Visit(msg, items[0]);
      VisitAllExtends(m, items[1..]);
      ExtendsTransitive(msg, m, VisitAll(m, items[1..]));
    }
  }

  lemma {:induction false} ItemExtends(msg: Message, a: Item, b: Item)
    requires ItemGrown(a, b)
    ensures Extends(Visit(msg, a), Visit(msg, b))
  {
    hide ToJson, Completes;
    if a.Tool? && a.args.Some? && a.args.value.Some? {
      Grows(a.args.value.value, b.args.value.value);
    }
  }

  /** A later parse of a growing answer gives a message that extends the earlier one. */
  lemma {:induction false} GemmaGrows(msg: Message, as_: seq<Item>, bs: seq<Item>)
    requires ItemsGrown(as_, bs)
    ensures Extends(VisitAll(msg, as_), VisitAll(msg, bs))
    decreases |as_|
  {
    hide Visit, Extends, ItemGrown;
    if as_ == [] {
      VisitAllExtends(msg, bs);
    } else if |as_| == 1 {
      ItemExtends(msg, as_[0], bs[0]);
      assert as_[1..] == [];
      VisitAllExtends(Visit(msg, bs[0]), bs[1..]);
      ExtendsTransitive(Visit(msg, as_[0]), Visit(msg, bs[0]), VisitAll(msg, bs));
    } else {
      GemmaGrows(Visit(msg, as_[0]), as_[1..], bs[1..]);
    }
  }

  // ---------- later trees ----------

  /** `b` is a later tree for the same place as seen by the visit: texts grow, the name of a call is final once it is
      complete, the value below the arguments is completed, and only the last child of a node changes. */
  predicate Later(a: Node, b: Node)
    decreases a
  {
    a == b ||
    (a.tag == b.tag && LaterAll(a.children, b.children) &&
     match a.tag
     case ReasoningTag => a.text <= b.text
     case ContentTag => a.text <= b.text
     case ToolNameTag => a.partial
     case ToolArgsTag => CompletesFirst(a.children, b.children)
     case _ => true)
  }

  predicate LaterAll(as_: seq<Node>, bs: seq<Node>)
    decreases as_
  {
    as_ == [] ||
    (bs != [] && if |as_| == 1 then Later(as_[0], bs[0]) else as_[0] == bs[0] && LaterAll(as_[1..], bs[1..]))
  }

  /** What the search has found stays found. */
  lemma {:induction false} FindLater(as_: seq<Node>, bs: seq<Node>, tag: Tag, depth: int)
    requires LaterAll(as_, bs) && Find(as_, tag, depth).Some?
    ensures Find(bs, tag, depth).Some? && Later(Find(as_, tag, depth).value, Find(bs, tag, depth).value)
    decreases as_
  {
    if as_[0].tag != tag {
      if depth > 1 && Find(as_[0].children, tag, depth - 1).Some? {
        if as_[0] != bs[0] { FindLater(as_[0].children, bs[0].children, tag, depth - 1); }
      } else if |as_| > 1 {
        FindLater(as_[1..], bs[1..], tag, depth);
      }
    }
  }

  lemma {:induction false} ItemSame(a: Item)
    ensures ItemGrown(a, a)
  {
  }

  lemma {:induction false} ItemsSame(as_: seq<Item>)
    ensures ItemsGrown(as_, as_)
  {
    hide ItemGrown;
    if as_ != [] {
      ItemSame(as_[0]);
      ItemsSame(as_[1..]);
    }
  }

  lemma {:induction false} GrownMore(as_: seq<Item>, bs: seq<Item>, more: seq<Item>)
    requires ItemsGrown(as_, bs)
    ensures ItemsGrown(as_, bs + more)
    decreases |as_|
  {
    hide ItemGrown;
    if |as_| > 1 {
      GrownMore(as_[1..], bs[1..], more);
      assert (bs + more)[1..] == bs[1..] + more;
    }
  }

  lemma {:induction false} GrownBehind(front: seq<Item>, as_: seq<Item>, bs: seq<Item>)
    requires ItemsGrown(as_, bs)
    ensures ItemsGrown(front + as_, front + bs)
    decreases |front|
  {
    hide ItemGrown;
    if front == [] {
      assert front + as_ == as_ && front + bs == bs;
    } else {
      GrownBehind(front[1..], as_, bs);
      assert (front + as_)[1..] == front[1..] + as_ && (front + bs)[1..] == front[1..] + bs;
      ItemSame(front[0]);
    }
  }

  lemma {:induction false} ToolLater(a: Node, b: Node)
    requires LaterAll(a.children, b.children)
    ensures ItemGrown(ToolItem(a), ToolItem(b))
  {
    hide Find, Completes;
    if Find(a.children, ToolNameTag, DEPTH).Some? { FindLater(a.children, b.children, ToolNameTag, DEPTH); }
    if Find(a.children, ToolArgsTag, DEPTH).Some? {
      FindLater(a.children, b.children, ToolArgsTag, DEPTH);
      var x, y := Find(a.children, ToolArgsTag, DEPTH).value, Find(b.children, ToolArgsTag, DEPTH).value;
      if x.children != [] && x == y { CompletesSame(x.children[0]); }
    }
  }

  lemma {:induction false} CompletesSame(n: Node)
    ensures Completes(n, n)
  {
  }

  lemma {:induction false} ItemsLater(a: Node, b: Node)
    requires Later(a, b)
    ensures ItemsGrown(Items(a), Items(b))
    decreases a, 1
  {
    hide ToolItem, ItemsAll;
    if a == b {
      ItemsSame(Items(a));
    } else {
      match a.tag
      case ReasoningTag =>
      case ContentTag =>
      case ToolTag => ToolLater(a, b);
      case _ => ItemsAllLater(a.children, b.children);
    }
  }

  lemma {:induction false} ItemsAllLater(as_: seq<Node>, bs: seq<Node>)
    requires LaterAll(as_, bs)
    ensures ItemsGrown(ItemsAll(as_), ItemsAll(bs))
    decreases as_, 0
  {
    hide Items, Later, ItemGrown;
    if |as_| == 1 {
      ItemsLater(as_[0], bs[0]);
      GrownMore(Items(as_[0]), Items(bs[0]), ItemsAll(bs[1..]));
      assert ItemsAll(as_) == Items(as_[0]) + [] == Items(as_[0]);
    } else if as_ != [] {
      ItemsAllLater(as_[1..], bs[1..]);
      GrownBehind(Items(as_[0]), ItemsAll(as_[1..]), ItemsAll(bs[1..]));
    }
  }

  /** The mapper's message for later trees extends its message for the earlier ones. */
  lemma {:induction false} TreesGrow(msg: Message, as_: seq<Node>, bs: seq<Node>)
    requires LaterAll(as_, bs)
    ensures Extends(VisitAll(msg, ItemsAll(as_)), VisitAll(msg, ItemsAll(bs)))
  {
    hide VisitAll, ItemsAll, Extends;
    ItemsAllLater(as_, bs);
    GemmaGrows(msg, ItemsAll(as_), ItemsAll(bs));
  }
}
