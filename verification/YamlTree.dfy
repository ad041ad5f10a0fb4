/**
 * The tree builder of src/helper/wr_yaml_parser.c: one stack, one level counter and a current node
 * turn a flat stream of events into child and sibling links. It computes a recursively defined tree.
 */
module YamlTree {
  import opened Seqs

  // ----- documents and their event streams -----

  /** A document; mapping keys are scalars. */
  datatype Doc = Scalar(text: string) | Mapping(pairs: Pairs) | Sequence(items: Docs)
  datatype Docs = NoDocs | Docs(first: Doc, rest: Docs)
  datatype Pairs = NoPairs | Pairs(key: string, val: Doc, more: Pairs)

  datatype Event = ScalarEvent(text: string) | SequenceStart | SequenceEnd | MappingStart | MappingEnd

  function Events(d: Doc): seq<Event> {
    match d
    case Scalar(t) => [ScalarEvent(t)]
    case Mapping(ps) => [MappingStart] + PairEvents(ps) + [MappingEnd]
    case Sequence(ds) => [SequenceStart] + ItemEvents(ds) + [SequenceEnd]
  }

  function ItemEvents(ds: Docs): seq<Event> {
    if ds.NoDocs? then [] else Events(ds.first) + ItemEvents(ds.rest)
  }

  function PairEvents(ps: Pairs): seq<Event> {
    if ps.NoPairs? then [] else [ScalarEvent(ps.key)] + Events(ps.val) + PairEvents(ps.more)
  }

  // ----- the tree -----

  datatype Kind = TypeNone | TypeList | TypeArray

  /** node_t with everything reachable from it; Nil is the null pointer. */
  datatype Node = Nil | Node(kind: Kind, key: Option<string>, value: Option<string>, level: int, child: Node, next: Node)

  function Blank(kind: Kind, level: int): Node {
    Node(kind, None, None, level, Nil, Nil)
  }

  /** The nodes of a collection whose members are at `level`; an empty collection is one blank node. */
  function Tree(d: Doc, level: int): Node {
    match d
    case Scalar(t) => Nil
    case Mapping(ps) => if ps.NoPairs? then Blank(TypeArray, level) else PairTree(ps, level)
    case Sequence(ds) => if ds.NoDocs? then Blank(TypeList, level) else ItemTree(ds, level)
  }

  /** One node for each pair: a scalar is its value, a collection its children. */
  function PairTree(ps: Pairs, level: int): Node {
    match ps
    case NoPairs => Nil
    case Pairs(k, v, more) =>
      Node(TypeArray, Some(k), if v.Scalar? then Some(v.text) else None, level, Tree(v, level + 1), PairTree(more, level))
  }

  /** One node for each item, but a collection that follows a scalar becomes the child of that scalar's node. */
  function ItemTree(ds: Docs, level: int): Node {
    if ds.NoDocs? then Nil
    else if !ds.first.Scalar? then
      Node(TypeList, None, None, level, Tree(ds.first, level + 1), ItemTree(ds.rest, level))
    else if ds.rest.Docs? && !ds.rest.first.Scalar? then
      Node(TypeList, Some(ds.first.text), None, level, Tree(ds.rest.first, level + 1), ItemTree(ds.rest.rest, level))
    else
      Node(TypeList, Some(ds.first.text), None, level, Nil, ItemTree(ds.rest, level))
  }

  /** What yaml_parse returns for a whole document. */
  function Root(d: Doc): Node {
    if d.Scalar? then Node(TypeNone, Some(d.text), None, 0, Nil, Nil) else Tree(d, 1)
  }

  // ----- the tree one would expect -----

  /** One node for each pair or item and none for an empty collection. */
  function Natural(d: Doc, level: int): Node {
    match d
    case Scalar(t) => Nil
    case Mapping(ps) => NaturalPairs(ps, level)
    case Sequence(ds) => NaturalItems(ds, level)
  }

  function NaturalPairs(ps: Pairs, level: int): Node {
    match ps
    case NoPairs => Nil
    case Pairs(k, v, more) =>
      var value := if v.Scalar? then Some(v.text) else None;
      Node(TypeArray, Some(k), value, level, Natural(v, level + 1), NaturalPairs(more, level))
  }

  function NaturalItems(ds: Docs, level: int): Node {
    match ds
    case NoDocs => Nil
    case Docs(d, rest) =>
      var key := if d.Scalar? then Some(d.text) else None;
      Node(TypeList, key, None, level, Natural(d, level + 1), NaturalItems(rest, level))
  }

  function NaturalRoot(d: Doc): Node {
    if d.Scalar? then Root(d) else Natural(d, 1)
  }

  /** No collection is empty, and in no sequence does a collection follow a scalar. */
  predicate Plain(d: Doc) {
    match d
    case Scalar(_) => true
    case Mapping(ps) => ps.Pairs? && PlainPairs(ps)
    case Sequence(ds) => ds.Docs? && PlainItems(ds)
  }

  predicate PlainPairs(ps: Pairs) {
    ps.NoPairs? || (Plain(ps.val) && PlainPairs(ps.more))
  }

  predicate PlainItems(ds: Docs) {
    ds.NoDocs?
    || (Plain(ds.first) && !(ds.first.Scalar? && ds.rest.Docs? && !ds.rest.first.Scalar?) && PlainItems(ds.rest))
  }

  lemma TreeIsThere(d: Doc, level: int)
    requires !d.Scalar?
    ensures Tree(d, level) != Nil
  {}

  lemma {:induction false} NaturalExactly(d: Doc, level: int)
    ensures Tree(d, level) == Natural(d, level) <==> Plain(d)
    decreases d
  {
    match d
    case Scalar(_) =>
    case Mapping(ps) => PairsNatural(ps, level);
    case Sequence(ds) => ItemsNatural(ds, level);
  }

  lemma {:induction false} PairsNatural(ps: Pairs, level: int)
    ensures PairTree(ps, level) == NaturalPairs(ps, level) <==> PlainPairs(ps)
    decreases ps
  {
    if ps.Pairs? {
      NaturalExactly(ps.val, level + 1);
      PairsNatural(ps.more, level);
    }
  }

  lemma {:induction false} ItemsNatural(ds: Docs, level: int)
    ensures ItemTree(ds, level) == NaturalItems(ds, level) <==> PlainItems(ds)
    decreases ds
  {
    if ds.Docs? {
      NaturalExactly(ds.first, level + 1);
      ItemsNatural(ds.rest, level);
      if ds.first.Scalar? && ds.rest.Docs? && !ds.rest.first.Scalar? {
        TreeIsThere(ds.rest.first, level + 1);
      }
    }
  }

  /** yaml_parse returns the expected tree of a document if and only if the document is plain. */
  lemma NaturalIfPlain(d: Doc)
    ensures Root(d) == NaturalRoot(d) <==> Plain(d)
  {
    NaturalExactly(d, 1);
  }

  /** A pair, a collection swallowed by the scalar in front of it, and an empty collection. */
  lemma SmallTrees()
    ensures Root(Mapping(Pairs("k", Scalar("v"), NoPairs))) == Node(TypeArray, Some("k"), Some("v"), 1, Nil, Nil)
    ensures Root(Sequence(Docs(Scalar("a"), Docs(Sequence(Docs(Scalar("b"), NoDocs)), NoDocs))))
      == Node(TypeList, Some("a"), None, 1, Node(TypeList, Some("b"), None, 2, Nil, Nil), Nil)
    ensures Root(Mapping(Pairs("k", Sequence(NoDocs), NoPairs)))
      == Node(TypeArray, Some("k"), None, 1, Node(TypeList, None, None, 2, Nil, Nil), Nil)
    ensures Root(Sequence(Docs(Mapping(NoPairs), NoDocs)))
      == Node(TypeList, None, None, 1, Node(TypeArray, None, None, 2, Nil, Nil), Nil)
  {}

  // ----- the event machine -----

  /** A node on the stack; `linked` while its child pointer is the first node of the open collection. */
  datatype Item = Item(node: Node, linked: bool)

  /** The locals of yaml_parse: the current node, the stack (top last) and the level. */
  datatype State = State(node: Node, stack: seq<Item>, level: int)

  const START := State(Nil, [], 0)

  function CreateChild(s: State, kind: Kind): State {
    State(Blank(kind, s.level + 1), if s.node.Nil? then s.stack else s.stack + [Item(s.node, true)], s.level + 1)
  }

  function TopKind(stack: seq<Item>): Kind {
    if stack != [] && stack[|stack| - 1].node.Node? then stack[|stack| - 1].node.kind else TypeNone
  }

  function CreateScalar(s: State, text: string): State {
    var stack := if s.node.Nil? then s.stack else s.stack + [Item(s.node, false)];
    State(Node(TopKind(stack), Some(text), None, s.level, Nil, Nil), stack, s.level)
  }

  /** A popped node gets the nodes behind it as its siblings. */
  function WithNext(i: Item, node: Node): Node
    requires i.node.Node?
  {
    i.node.(next := node, child := if i.linked then node else i.node.child)
  }

  /** The popping loop: every node of this level is chained in front of those above it. */
  function PopSiblings(node: Node, stack: seq<Item>, level: int): (Node, seq<Item>)
    decreases |stack|
  {
    if stack != [] && stack[|stack| - 1].node.Node? && stack[|stack| - 1].node.level == level then
      PopSiblings(WithNext(stack[|stack| - 1], node), stack[..|stack| - 1], level)
    else
      (node, stack)
  }

  /** `head_node->child == node`: the finished collection is already linked, or there is nothing to link. */
  predicate SameChild(top: Item, node: Node)
    requires top.node.Node?
  {
    top.linked || (node.Nil? && top.node.child.Nil?)
  }

  /** Linking a finished chain of siblings to the level below. */
  function Link(node: Node, stack: seq<Item>, level: int): State {
    if stack == [] || stack[|stack| - 1].node.Nil? then State(node, stack, level)
    else
      var n, top := |stack| - 1, stack[|stack| - 1];
      if SameChild(top, node) then State(Nil, stack[n := Item(top.node.(child := node), false)], level)
      else State(Nil, stack + [Item(Node(top.node.kind, None, None, level, node, Nil), false)], level)
  }

  function SetSiblings(s: State): State {
    var (node, stack) := PopSiblings(s.node, s.stack, s.level);
    Link(node, stack, s.level - 1)
  }

  function OnScalar(s: State, text: string): State {
    if s.node.Nil? then CreateScalar(s, text)
    else if s.node.key == None then s.(node := s.node.(key := Some(text)))
    else if s.node.kind == TypeList then CreateScalar(s, text)
    else if s.node.value == None then s.(node := s.node.(value := Some(text)))
    else CreateScalar(s, text)
  }

  function Step(s: State, e: Event): State {
    match e
    case ScalarEvent(t) => OnScalar(s, t)
    case SequenceStart => CreateChild(s, TypeList)
    case MappingStart => CreateChild(s, TypeArray)
    case SequenceEnd => SetSiblings(s)
    case MappingEnd => SetSiblings(s)
  }

  function Run(s: State, es: seq<Event>): State
    decreases |es|
  {
    if es == [] then s else Run(Step(s, es[0]), es[1..])
  }

  lemma {:induction false} RunConcat(s: State, a: seq<Event>, b: seq<Event>)
    ensures Run(s, a + b) == Run(Run(s, a), b)
    decreases |a|
  {
    hide Step;
    if a == [] {
      assert a + b == b;
    } else {
      assert (a + b)[0] == a[0] && (a + b)[1..] == a[1..] + b;
      RunConcat(Step(s, a[0]), a[1..], b);
    }
  }

  lemma RunOne(s: State, e: Event)
    ensures Run(s, [e]) == Step(s, e)
  {
    assert Run(Step(s, e), []) == Step(s, e);
  }

  // ----- the members of one open collection -----

  /** The members at one level that wait on the stack: complete, of one kind, not yet linked as siblings. */
  ghost predicate Members(g: seq<Item>, kind: Kind, level: int) {
    forall i :: 0 <= i < |g| ==>
      && !g[i].linked && g[i].node.Node? && g[i].node.level == level
      && g[i].node.kind == kind && g[i].node.next == Nil
  }

  /** What lies under them on the stack belongs to lower levels. */
  ghost predicate Below(base: seq<Item>, level: int) {
    forall i :: 0 <= i < |base| ==> base[i].node.Node? && base[i].node.level < level
  }

  /** The sibling chain the members form in front of `rest`. */
  function Chain(g: seq<Item>, rest: Node): Node {
    if g == [] then rest
    else if g[|g| - 1].node.Node? then Chain(g[..|g| - 1], g[|g| - 1].node.(next := rest))
    else rest
  }

  lemma {:induction false} PopsExactlyTheMembers(base: seq<Item>, g: seq<Item>, node: Node, kind: Kind, level: int)
    requires Below(base, level) && Members(g, kind, level)
    ensures PopSiblings(node, base + g, level) == (Chain(g, node), base)
    decreases |g|
  {
    if g == [] {
      assert base + g == base;
    } else {
      var h := g[..|g| - 1];
      assert (base + g)[..|base + g| - 1] == base + h;
      PopsExactlyTheMembers(base, h, g[|g| - 1].node.(next := node), kind, level);
    }
  }

  lemma {:induction false} ChainIsThere(g: seq<Item>, rest: Node, kind: Kind, level: int)
    requires Members(g, kind, level) && (g != [] || rest != Nil)
    ensures Chain(g, rest) != Nil
    decreases |g|
  {
    if g != [] { ChainIsThere(g[..|g| - 1], g[|g| - 1].node.(next := rest), kind, level); }
  }

  /** A member node to which nothing is linked yet. */
  ghost predicate Pending(n: Node, kind: Kind, level: int) {
    n.Node? && n.kind == kind && n.level == level && n.child == Nil && n.next == Nil
  }

  /** Between two events at `level`: members on the stack, and a pending node or none. */
  ghost predicate Inside(s: State, base: seq<Item>, g: seq<Item>, kind: Kind, level: int) {
    && s.stack == base + g && s.level == level && Below(base, level) && Members(g, kind, level)
    && (s.node == Nil || Pending(s.node, kind, level))
    && (s.node == Nil ==> g != [])
  }

  lemma ChainPush(g: seq<Item>, n: Node, rest: Node)
    requires n.Node?
    ensures Chain(g + [Item(n, false)], rest) == Chain(g, n.(next := rest))
  {
    var h := g + [Item(n, false)];
    assert h[..|h| - 1] == g;
  }

  /** A state of kind Inside after one more member `n` has been pushed. */
  lemma Pushed(base: seq<Item>, g: seq<Item>, n: Node, kind: Kind, level: int)
    requires Below(base, level) && Members(g, kind, level)
    requires n.Node? && n.level == level && n.kind == kind && n.next == Nil
    ensures base + g + [Item(n, false)] == base + (g + [Item(n, false)])
    ensures Members(g + [Item(n, false)], kind, level)
    ensures TopKind(base + (g + [Item(n, false)])) == kind
  {}

  /** The stack and current node after a nested collection `tree` has been completed. */
  function Closed(s: State, tree: Node): State {
    if s.node.Node? then State(Nil, s.stack + [Item(s.node.(child := tree), false)], s.level)
    else if s.stack == [] then State(tree, [], s.level)
    else State(Nil, s.stack + [Item(Node(TopKind(s.stack), None, None, s.level, tree, Nil), false)], s.level)
  }

  /** Where a nested collection may start. */
  ghost predicate Ready(s: State) {
    && Below(s.stack, s.level + 1)
    && (s.node.Node? ==> s.node.level == s.level)
    && (s.node.Nil? && s.stack != [] ==> !s.stack[|s.stack| - 1].linked)
  }

  /** The end event: members become siblings and are linked to, or wrapped for, the level below. */
  lemma Close(s: State, kind: Kind, t: State, g: seq<Item>, base: seq<Item>)
    requires Ready(s) && base == CreateChild(s, kind).stack
    requires Inside(t, base, g, kind, s.level + 1)
    ensures SetSiblings(t) == Closed(s, Chain(g, t.node))
  {
    PopsExactlyTheMembers(base, g, t.node, kind, s.level + 1);
    ChainIsThere(g, t.node, kind, s.level + 1);
    if s.node.Node? {
      assert base[|base| - 1] == Item(s.node, true);
    }
  }

  /** The whole of a nested collection leaves one completed member behind. */
  lemma {:induction false} CollectionRun(d: Doc, s: State)
    requires !d.Scalar? && Ready(s)
    ensures Run(s, Events(d)) == Closed(s, Tree(d, s.level + 1))
    decreases d, 0
  {
    hide Run, Inside, Closed, SetSiblings, Chain;
    var kind := if d.Mapping? then TypeArray else TypeList;
    var u := CreateChild(s, kind);
    var inner := if d.Mapping? then PairEvents(d.pairs) else ItemEvents(d.items);
    var start := if d.Mapping? then MappingStart else SequenceStart;
    var end := if d.Mapping? then MappingEnd else SequenceEnd;
    assert Events(d) == [start] + inner + [end];
    var t := Run(u, inner);
    assert Run(s, Events(d)) == SetSiblings(t) by {
      RunConcat(s, [start] + inner, [end]);
      RunConcat(s, [start], inner);
      RunOne(s, start);
      RunOne(t, end);
    }
    Opened(s, kind);
    ghost var g: seq<Item>;
    if d.Mapping? {
      g := PairsRun(d.pairs, u, u.stack, [], s.level + 1);
    } else {
      g := ItemsRun(d.items, u, u.stack, [], s.level + 1);
    }
    Close(s, kind, t, g, u.stack);
    ChainNothing(Tree(d, s.level + 1));
  }

  lemma ChainNothing(n: Node)
    ensures Chain([], n) == n
  {}

  lemma Opened(s: State, kind: Kind)
    requires Ready(s)
    ensures Inside(CreateChild(s, kind), CreateChild(s, kind).stack, [], kind, s.level + 1)
  {
    var u := CreateChild(s, kind);
    assert u.stack + [] == u.stack;
  }

  /** What the current node and the remaining pairs become. */
  function PairRest(n: Node, ps: Pairs, level: int): Node {
    match n
    case Nil => PairTree(ps, level)
    case Node(_, _, _, _, _, _) =>
      if n.key.Some? then n.(next := PairTree(ps, level))
      else if ps.NoPairs? then n
      else PairTree(ps, level)
  }

  /** What the current node and the remaining items become. */
  function ItemRest(n: Node, ds: Docs, level: int): Node {
    match n
    case Nil => ItemTree(ds, level)
    case Node(_, _, _, _, _, _) =>
      if n.key.None? then if ds.NoDocs? then n else ItemTree(ds, level)
      else if ds.Docs? && !ds.first.Scalar? then
        n.(child := Tree(ds.first, level + 1), next := ItemTree(ds.rest, level))
      else n.(next := ItemTree(ds, level))
  }

  lemma ClosedInside(s: State, base: seq<Item>, g: seq<Item>, kind: Kind, level: int, tree: Node) returns (m: Item)
    requires Inside(s, base, g, kind, level)
    ensures Ready(s) && Inside(Closed(s, tree), base, g + [m], kind, level) && Closed(s, tree).node == Nil
    ensures m == Item(if s.node.Node? then s.node.(child := tree) else Node(kind, None, None, level, tree, Nil), false)
  {
    m := Item(if s.node.Node? then s.node.(child := tree) else Node(kind, None, None, level, tree, Nil), false);
    Pushed(base, g, m.node, kind, level);
    if s.node.Nil? { assert s.stack[|s.stack| - 1] == g[|g| - 1]; }
  }

  /** A new scalar node: the pending one, if any, is pushed. */
  lemma ScalarPushed(s: State, base: seq<Item>, g: seq<Item>, kind: Kind, level: int, text: string) returns (h: seq<Item>)
    requires Inside(s, base, g, kind, level)
    ensures Inside(CreateScalar(s, text), base, h, kind, level)
    ensures CreateScalar(s, text).node == Node(kind, Some(text), None, level, Nil, Nil)
    ensures h == if s.node.Nil? then g else g + [Item(s.node, false)]
  {
    h := if s.node.Nil? then g else g + [Item(s.node, false)];
    if s.node.Node? {
      Pushed(base, g, s.node, kind, level);
    } else {
      assert s.stack[|s.stack| - 1] == g[|g| - 1];
    }
  }

  /** The remaining items of a sequence. */
  lemma {:induction false} ItemsRun(ds: Docs, s: State, base: seq<Item>, g: seq<Item>, level: int) returns (h: seq<Item>)
    requires Inside(s, base, g, TypeList, level)
    requires s.node.Node? ==> s.node.value == None
    ensures var t := Run(s, ItemEvents(ds));
      Inside(t, base, h, TypeList, level) && Chain(h, t.node) == Chain(g, ItemRest(s.node, ds, level))
    decreases ds
  {
    hide Run, Inside, Chain, Closed, CreateScalar, Ready, Events;
    if ds.NoDocs? {
      RunNothing(s);
      h := g;
      PendingEnds(s, base, g, TypeList, level);
    } else {
      RunConcat(s, Events(ds.first), ItemEvents(ds.rest));
      PendingEnds(s, base, g, TypeList, level);
      if ds.first.Scalar? {
        var text := ds.first.text;
        RunScalar(s, text);
        if s.node.Node? && s.node.key.None? {
          Renamed(s, base, g, TypeList, level, s.node.(key := Some(text)));
          h := ItemsRun(ds.rest, s.(node := s.node.(key := Some(text))), base, g, level);
        } else {
          var g' := ScalarPushed(s, base, g, TypeList, level, text);
          h := ItemsRun(ds.rest, CreateScalar(s, text), base, g', level);
          if s.node.Node? { ChainPush(g, s.node, ItemRest(CreateScalar(s, text).node, ds.rest, level)); }
        }
      } else {
        var tree := Tree(ds.first, level + 1);
        var m := ClosedInside(s, base, g, TypeList, level, tree);
        LevelOf(s, base, g, TypeList, level);
        CollectionRun(ds.first, s);
        h := ItemsRun(ds.rest, Closed(s, tree), base, g + [m], level);
        ChainPush(g, m.node, ItemTree(ds.rest, level));
      }
    }
  }

  lemma LevelOf(s: State, base: seq<Item>, g: seq<Item>, kind: Kind, level: int)
    requires Inside(s, base, g, kind, level)
    ensures s.level == level
  {}

  lemma RunNothing(s: State)
    ensures Run(s, []) == s
  {}

  lemma RunScalar(s: State, text: string)
    ensures Run(s, Events(Scalar(text))) == OnScalar(s, text)
  {
    RunOne(s, ScalarEvent(text));
  }

  lemma PendingEnds(s: State, base: seq<Item>, g: seq<Item>, kind: Kind, level: int)
    requires Inside(s, base, g, kind, level)
    ensures s.node.Node? ==> Pending(s.node, kind, level) && s.node.(next := Nil) == s.node
  {}

  lemma Renamed(s: State, base: seq<Item>, g: seq<Item>, kind: Kind, level: int, n: Node)
    requires Inside(s, base, g, kind, level) && Pending(n, kind, level)
    ensures Inside(s.(node := n), base, g, kind, level)
  {}

  /** The remaining pairs of a mapping. */
  lemma {:induction false} PairsRun(ps: Pairs, s: State, base: seq<Item>, g: seq<Item>, level: int) returns (h: seq<Item>)
    requires Inside(s, base, g, TypeArray, level)
    requires s.node.Node? ==> s.node.value.Some? == s.node.key.Some?
    ensures var t := Run(s, PairEvents(ps));
      Inside(t, base, h, TypeArray, level) && Chain(h, t.node) == Chain(g, PairRest(s.node, ps, level))
    decreases ps
  {
    hide Run, Inside, Chain, Closed, CreateScalar, Ready, Events;
    PendingEnds(s, base, g, TypeArray, level);
    if ps.NoPairs? {
      RunNothing(s);
      h := g;
    } else {
      var k := ps.key;
      var n := Node(TypeArray, Some(k), None, level, Nil, Nil);
      assert PairEvents(ps) == Events(Scalar(k)) + (Events(ps.val) + PairEvents(ps.more)) by { KeyEvents(ps); }
      RunConcat(s, Events(Scalar(k)), Events(ps.val) + PairEvents(ps.more));
      RunScalar(s, k);
      var g', u := g, OnScalar(s, k);
      if s.node.Node? && s.node.key.None? {
        Renamed(s, base, g, TypeArray, level, n);
      } else {
        g' := ScalarPushed(s, base, g, TypeArray, level, k);
      }
      RunConcat(u, Events(ps.val), PairEvents(ps.more));
      assert Inside(u, base, g', TypeArray, level) && u.node == n;
      h := ValueRun(ps, u, base, g', level);
      if s.node.Node? && s.node.key.Some? { ChainPush(g, s.node, PairTree(ps, level)); }
    }
  }

  lemma KeyEvents(ps: Pairs)
    requires ps.Pairs?
    ensures PairEvents(ps) == Events(Scalar(ps.key)) + (Events(ps.val) + PairEvents(ps.more))
  {
    assert [ScalarEvent(ps.key)] + Events(ps.val) + PairEvents(ps.more)
      == [ScalarEvent(ps.key)] + (Events(ps.val) + PairEvents(ps.more));
  }

  /** From the key of a pair on. */
  lemma {:induction false} ValueRun(ps: Pairs, u: State, base: seq<Item>, g: seq<Item>, level: int) returns (h: seq<Item>)
    requires ps.Pairs? && Inside(u, base, g, TypeArray, level)
    requires u.node == Node(TypeArray, Some(ps.key), None, level, Nil, Nil)
    ensures var t := Run(Run(u, Events(ps.val)), PairEvents(ps.more));
      Inside(t, base, h, TypeArray, level) && Chain(h, t.node) == Chain(g, PairTree(ps, level))
    decreases ps, 0
  {
    hide Run, Inside, Chain, Closed, CreateScalar, Ready, Events;
    if ps.val.Scalar? {
      var n := u.node.(value := Some(ps.val.text));
      RunScalar(u, ps.val.text);
      Renamed(u, base, g, TypeArray, level, n);
      h := PairsRun(ps.more, u.(node := n), base, g, level);
    } else {
      var tree := Tree(ps.val, level + 1);
      var m := ClosedInside(u, base, g, TypeArray, level, tree);
      LevelOf(u, base, g, TypeArray, level);
      CollectionRun(ps.val, u);
      h := PairsRun(ps.more, Closed(u, tree), base, g + [m], level);
      ChainPush(g, m.node, PairTree(ps.more, level));
    }
  }

  /** A whole document: exactly its tree, the stack empty and the level back to 0. */
  lemma DocumentRun(d: Doc)
    ensures Run(START, Events(d)) == State(Root(d), [], 0)
  {
    hide Run, Tree, Events;
    if d.Scalar? {
      RunScalar(START, d.text);
    } else {
      CollectionRun(d, START);
    }
  }
}
