/**
 Unknown records: a field number the message does not list, or a listed number with another wire type,
 up to whole groups. Put between any two records, at any depth, they change nothing.
 */
module Unknown {
  import opened Wire
  import opened Codec
  import opened Locality
  import opened Streams
  import opened RoundTrip

  // ---------------------------------------------------------------- records nobody asked for

  datatype Item = Item(field: nat, payload: Content)

  datatype Content =
    | AVarint(n: nat)
    | AFixed64(bs: bytes)
    | ABytes(bs: bytes)
    | AGroup(items: seq<Item>)
    | AFixed32(bs: bytes)

  function WireTypeOf(c: Content): (w: nat)
    ensures w < 8 && w != 4
  {
    match c
    case AVarint(_) => 0
    case AFixed64(_) => 1
    case ABytes(_) => 2
    case AGroup(_) => 3
    case AFixed32(_) => 5
  }

  function TagOf(item: Item): nat {
    8 * item.field + WireTypeOf(item.payload)
  }

  predicate ItemOk(item: Item) {
    && 0 < item.field
    && 8 * item.field + 7 < TWO_32
    && match item.payload
       case AVarint(n) => n < TWO_64
       case AFixed64(bs) => |bs| == 8
       case ABytes(bs) => |bs| < TWO_32
       case AGroup(items) => forall x | x in items :: ItemOk(x)
       case AFixed32(bs) => |bs| == 4
  }

  function ItemBytes(item: Item): bytes
    decreases item, 1
  {
    Varint(TagOf(item)) + ContentBytes(item.field, item.payload)
  }

  /** A group holds its records and then its own end tag. */
  function ContentBytes(field: nat, c: Content): bytes
    decreases c, 0
  {
    match c
    case AVarint(n) => Varint(n)
    case AFixed64(bs) => bs
    case ABytes(bs) => LengthPrefixed(bs)
    case AGroup(items) => ItemsBytes(items) + Varint(8 * field + 4)
    case AFixed32(bs) => bs
  }

  function ItemsBytes(items: seq<Item>): bytes
    decreases items, 2
  {
    if items == [] then [] else ItemBytes(items[0]) + ItemsBytes(items[1..])
  }

  lemma TagParts(item: Item)
    ensures TagOf(item) / 8 == item.field && TagOf(item) % 8 == WireTypeOf(item.payload)
  {
  }

  /** Skipping consumes a record's content exactly, groups to their matching end tag. */
  lemma {:induction false} SkipContent(item: Item, within: Option<nat>)
    requires ItemOk(item) && (within.Some? ==> within.value == item.field)
    ensures var bs := ContentBytes(item.field, item.payload);
      Skip(bs, 0, WireTypeOf(item.payload), within) == Got((), |bs|)
    decreases item, 0
  {
    match item.payload
    case AVarint(n) =>
      ReadVarintWritten(n, []);
      assert Varint(n) + [] == Varint(n);
    case ABytes(bs) =>
      ReadBytesWritten(bs, []);
      assert LengthPrefixed(bs) + [] == LengthPrefixed(bs);
    case AGroup(items) => SkipItems(item.field, items, within);
    case _ =>
  }

  lemma SkipEndTag(field: nat, within: Option<nat>)
    requires 0 < field && 8 * field + 4 < TWO_32 && (within.Some? ==> within.value == field)
    ensures SkipGroup(Varint(8 * field + 4), 0, within) == Got((), |Varint(8 * field + 4)|)
  {
    var tag := 8 * field + 4;
    assert tag / 8 == field && tag % 8 == 4;
    ReadUint32Written(tag, []);
    assert Varint(tag) + [] == Varint(tag);
  }

  lemma {:induction false} SkipItems(field: nat, items: seq<Item>, within: Option<nat>)
    requires 0 < field && 8 * field + 4 < TWO_32 && (within.Some? ==> within.value == field)
    requires forall x | x in items :: ItemOk(x)
    ensures var bs := ItemsBytes(items) + Varint(8 * field + 4);
      SkipGroup(bs, 0, within) == Got((), |bs|)
    decreases items, 1
  {
    var stop := Varint(8 * field + 4);
    if items == [] {
      SkipEndTag(field, within);
      assert ItemsBytes(items) + stop == stop;
    } else {
      var item, rest := items[0], ItemsBytes(items[1..]) + stop;
      assert item in items;
      SkipContent(item, Some(item.field));
      SkipItems(field, items[1..], within);
      SkipItemThen(item, rest, within);
      assert ItemsBytes(items) + stop == ItemBytes(item) + rest;
    }
  }

  lemma SkipItemThen(item: Item, rest: bytes, within: Option<nat>)
    requires ItemOk(item)
    requires var bs := ContentBytes(item.field, item.payload);
      Skip(bs, 0, WireTypeOf(item.payload), Some(item.field)) == Got((), |bs|)
    requires SkipGroup(rest, 0, within) == Got((), |rest|)
    ensures SkipGroup(ItemBytes(item) + rest, 0, within) == Got((), |ItemBytes(item) + rest|)
  {
    var tag, content := Varint(TagOf(item)), ContentBytes(item.field, item.payload);
    TagParts(item);
    SkipContentBetween(item, tag, rest);
    SkipGroupBehind(tag + content, rest, within);
    ReadTagBefore(TagOf(item), content, rest);
    GroupGoesOn(tag + content + rest, 0, TagOf(item), |tag|, |tag + content|, within);
  }

  lemma ReadTagBefore(n: nat, content: bytes, rest: bytes)
    requires n < TWO_32
    ensures ReadUint32(Varint(n) + content + rest, 0) == Got(n, |Varint(n)|)
  {
    assert Varint(n) + content + rest == Varint(n) + (content + rest);
    ReadUint32Written(n, content + rest);
  }

  lemma SkipGroupBehind(prefix: bytes, rest: bytes, within: Option<nat>)
    requires SkipGroup(rest, 0, within) == Got((), |rest|)
    ensures SkipGroup(prefix + rest, |prefix|, within) == Got((), |prefix + rest|)
  {
    AgreesBehind(prefix, rest);
    SkipGroupLocal(rest, 0, within, prefix + rest, |prefix|);
  }

  lemma GroupGoesOn(buf: bytes, pos: nat, tag: nat, p: nat, q: nat, within: Option<nat>)
    requires pos <= |buf| && q <= |buf| && ReadUint32(buf, pos) == Got(tag, p)
    requires tag / 8 != 0 && tag % 8 != 4
    requires Skip(buf, p, tag % 8, Some(tag / 8)) == Got((), q)
    ensures SkipGroup(buf, pos, within) == SkipGroup(buf, q, within)
  {
  }

  lemma SkipContentBetween(item: Item, before: bytes, after: bytes)
    requires var bs := ContentBytes(item.field, item.payload);
      Skip(bs, 0, WireTypeOf(item.payload), Some(item.field)) == Got((), |bs|)
    ensures var bs := ContentBytes(item.field, item.payload);
      Skip(before + bs + after, |before|, WireTypeOf(item.payload), Some(item.field)) == Got((), |before + bs|)
  {
    var bs := ContentBytes(item.field, item.payload);
    AgreesBetween(before, bs, after);
    SkipLocal(bs, 0, WireTypeOf(item.payload), Some(item.field), before + bs + after, |before|);
  }

  /** A record whose tag no arm takes is one record, without effect. */
  lemma UnknownIsRecord(g: Grammar, t: nat, item: Item)
    requires GrammarOk(g) && t < |g| && ItemOk(item) && TagOf(item) !in g[t].arms
    ensures IsRecord(g, t, ItemBytes(item), Nop)
  {
    var tag, content := Varint(TagOf(item)), ContentBytes(item.field, item.payload);
    TagParts(item);
    ReadUint32Written(TagOf(item), content);
    SkipContent(item, None);
    AgreesBehind(tag, content);
    SkipLocal(content, 0, WireTypeOf(item.payload), None, tag + content, |tag|);
  }

  // ---------------------------------------------------------------- streams with unknown records in them

  /** A stream with its nesting shown: some record `decode` knows, an unknown record, or a sub-message
      that is itself such a stream. */
  datatype Node = Known(c: bytes) | Junk(item: Item) | Nested(tag: nat, nodes: seq<Node>)

  predicate NodeOk(g: Grammar, t: nat, node: Node)
    requires GrammarOk(g) && t < |g|
    decreases node
  {
    match node
    case Known(c) => ReadStep(g, t, c, 0).Next? && ReadStep(g, t, c, 0).pos == |c|
    case Junk(item) => ItemOk(item) && TagOf(item) !in g[t].arms
    case Nested(tag, nodes) =>
      && tag < TWO_32 && tag in g[t].arms
      && ArmOk(g, g[t], g[t].arms[tag])
      && g[t].arms[tag].kind.KMsg?
      && !g[t].arms[tag].how.PushPacked?
      && |NodesBytes(nodes)| < TWO_32
      && forall n | n in nodes :: NodeOk(g, g[t].arms[tag].kind.schema, n)
  }

  predicate NodesOk(g: Grammar, t: nat, nodes: seq<Node>)
    requires GrammarOk(g) && t < |g|
  {
    forall n | n in nodes :: NodeOk(g, t, n)
  }

  function NodeBytes(node: Node): bytes
    decreases node, 0
  {
    match node
    case Known(c) => c
    case Junk(item) => ItemBytes(item)
    case Nested(tag, nodes) => Varint(tag) + LengthPrefixed(NodesBytes(nodes))
  }

  function NodesBytes(nodes: seq<Node>): bytes
    decreases nodes, 1
  {
    if nodes == [] then [] else NodeBytes(nodes[0]) + NodesBytes(nodes[1..])
  }

  /** The same stream without its unknown records, at any depth. */
  function Strip(nodes: seq<Node>): seq<Node>
    decreases nodes, 1
  {
    if nodes == [] then []
    else if nodes[0].Junk? then Strip(nodes[1..])
    else [StripNode(nodes[0])] + Strip(nodes[1..])
  }

  function StripNode(node: Node): Node
    decreases node, 0
  {
    if node.Nested? then Nested(node.tag, Strip(node.nodes)) else node
  }

  /** The message a stream decodes to, starting from `m`. */
  function Meaning(g: Grammar, t: nat, nodes: seq<Node>, m: Msg): (r: Msg)
    requires GrammarOk(g) && t < |g| && NodesOk(g, t, nodes) && |m.slots| == |g[t].plan|
    ensures |r.slots| == |m.slots|
    decreases nodes, 1
  {
    if nodes == [] then m else Meaning(g, t, nodes[1..], Apply(m, NodeEffect(g, t, nodes[0])))
  }

  function NodeEffect(g: Grammar, t: nat, node: Node): (e: Effect)
    requires GrammarOk(g) && t < |g| && NodeOk(g, t, node)
    ensures EffectOk(e, |g[t].plan|)
    decreases node, 0
  {
    match node
    case Known(c) => ReadStep(g, t, c, 0).effect
    case Junk(_) => Nop
    case Nested(tag, nodes) =>
      var arm := g[t].arms[tag];
      var v := Sub(Meaning(g, arm.kind.schema, nodes, g[arm.kind.schema].base));
      if arm.how.Assign? then Set(arm.slot, v) else Add(arm.slot, [v])
  }

  lemma {:induction false} NodeIsRecord(g: Grammar, t: nat, node: Node)
    requires GrammarOk(g) && t < |g| && NodeOk(g, t, node)
    ensures IsRecord(g, t, NodeBytes(node), NodeEffect(g, t, node))
    decreases node, 0
  {
    match node
    case Known(_) =>
    case Junk(item) => UnknownIsRecord(g, t, item);
    case Nested(tag, nodes) =>
      var s := g[t].arms[tag].kind.schema;
      var body := NodesBytes(nodes);
      LoopOverNodes(g, s, nodes, g[s].base);
      SubMessageReads(g, s, body, Meaning(g, s, nodes, g[s].base));
      TaggedRecord(g, t, tag, LengthPrefixed(body), NodeEffect(g, t, node));
  }

  lemma {:induction false} LoopOverNodes(g: Grammar, t: nat, nodes: seq<Node>, m: Msg)
    requires GrammarOk(g) && t < |g| && NodesOk(g, t, nodes) && |m.slots| == |g[t].plan|
    ensures Loop(g, t, NodesBytes(nodes), 0, |NodesBytes(nodes)|, m)
         == Got(Meaning(g, t, nodes, m), |NodesBytes(nodes)|)
    decreases nodes, 1
  {
    if nodes != [] {
      assert nodes[0] in nodes;
      var c, rest := NodeBytes(nodes[0]), NodesBytes(nodes[1..]);
      var e := NodeEffect(g, t, nodes[0]);
      NodeIsRecord(g, t, nodes[0]);
      LoopOverNodes(g, t, nodes[1..], Apply(m, e));
      LoopOverRecordThen(g, t, c, e, rest, m);
    }
  }

  lemma RecordIsNotEmpty(g: Grammar, t: nat, c: bytes, e: Effect)
    requires GrammarOk(g) && t < |g| && IsRecord(g, t, c, e)
    ensures |c| > 0
  {
  }

  lemma LoopOverRecordThen(g: Grammar, t: nat, c: bytes, e: Effect, rest: bytes, m: Msg)
    requires GrammarOk(g) && t < |g| && IsRecord(g, t, c, e) && |m.slots| == |g[t].plan|
    requires EffectOk(e, |m.slots|)
    requires Loop(g, t, rest, 0, |rest|, Apply(m, e)).Got? && Loop(g, t, rest, 0, |rest|, Apply(m, e)).pos == |rest|
    ensures Loop(g, t, c + rest, 0, |c + rest|, m)
         == Got(Loop(g, t, rest, 0, |rest|, Apply(m, e)).val, |c + rest|)
  {
    hide *;
    RecordIsNotEmpty(g, t, c, e);
    AgreesBefore(c, rest);
    LoopOverRecord(g, t, c, e, c + rest, 0, |c + rest|, m);
    LoopBehind(g, t, Apply(m, e), c, rest);
  }

  lemma {:induction false} StripMeaning(g: Grammar, t: nat, nodes: seq<Node>, m: Msg)
    requires GrammarOk(g) && t < |g| && NodesOk(g, t, nodes) && |m.slots| == |g[t].plan|
    ensures |NodesBytes(Strip(nodes))| <= |NodesBytes(nodes)|
    ensures NodesOk(g, t, Strip(nodes))
    ensures Meaning(g, t, Strip(nodes), m) == Meaning(g, t, nodes, m)
    decreases nodes, 1
  {
    if nodes != [] {
      assert nodes[0] in nodes;
      StripNodeEffect(g, t, nodes[0]);
      StripMeaning(g, t, nodes[1..], Apply(m, NodeEffect(g, t, nodes[0])));
      if !nodes[0].Junk? {
        assert Strip(nodes)[1..] == Strip(nodes[1..]);
      }
    }
  }

  lemma {:induction false} StripNodeEffect(g: Grammar, t: nat, node: Node)
    requires GrammarOk(g) && t < |g| && NodeOk(g, t, node)
    ensures |NodeBytes(StripNode(node))| <= |NodeBytes(node)|
    ensures NodeOk(g, t, StripNode(node))
    ensures NodeEffect(g, t, StripNode(node)) == NodeEffect(g, t, node)
    decreases node, 0
  {
    if node.Nested? {
      var s := g[t].arms[node.tag].kind.schema;
      StripMeaning(g, s, node.nodes, g[s].base);
      VarintMonotone(|NodesBytes(Strip(node.nodes))|, |NodesBytes(node.nodes)|);
    }
  }

  lemma {:induction false} VarintMonotone(a: nat, b: nat)
    requires a <= b
    ensures |Varint(a)| <= |Varint(b)|
    decreases b
  {
    if a >= 128 {
      VarintMonotone(a / 128, b / 128);
    }
  }

  /** Unknown records at any depth and in any number leave the decoded message as it is without them. */
  lemma UnknownRecordsIgnored(g: Grammar, t: nat, nodes: seq<Node>)
    requires GrammarOk(g) && t < |g| && NodesOk(g, t, nodes)
    ensures var with, without := NodesBytes(nodes), NodesBytes(Strip(nodes));
      && Decode(g, t, with, 0, |with|).Got?
      && Decode(g, t, with, 0, |with|).pos == |with|
      && Decode(g, t, without, 0, |without|) == Got(Decode(g, t, with, 0, |with|).val, |without|)
  {
    LoopOverNodes(g, t, nodes, g[t].base);
    StripMeaning(g, t, nodes, g[t].base);
    LoopOverNodes(g, t, Strip(nodes), g[t].base);
  }
}
