/**
 * yaml_parse of src/helper/wr_yaml_parser.c on the heap: nodes are objects, siblings and children are
 * pointers, and the state is proved to follow the event machine of YamlTree step by step.
 */
module YamlParser {
  import opened Seqs
  import opened YamlTree

  /** node_t */
  class NodeObj {
    var kind: Kind
    var key: Option<string>
    var value: Option<string>
    var level: int
    var child: NodeObj?
    var next: NodeObj?

    /** create_node, with the fields every caller sets at once. */
    constructor (kind: Kind, key: Option<string>, level: int)
      ensures this.kind == kind && this.key == key && this.level == level
      ensures value == None && child == null && next == null
    {
      this.kind, this.key, this.level := kind, key, level;
      value, child, next := None, null, null;
    }
  }

  /** Following the pointers from `o` unfolds to `n`; every object met is in `c`. */
  ghost predicate Unfolds(o: NodeObj?, n: Node, c: set<NodeObj>)
    reads c
    decreases n
  {
    match n
    case Nil => o == null
    case Node(kind, key, value, level, child, next) =>
      && o != null && o in c && o.kind == kind && o.key == key && o.value == value && o.level == level
      && Unfolds(o.child, child, c) && Unfolds(o.next, next, c)
  }

  lemma {:induction false} UnfoldsGrows(o: NodeObj?, n: Node, c: set<NodeObj>, d: set<NodeObj>)
    requires Unfolds(o, n, c) && c <= d
    ensures Unfolds(o, n, d)
    decreases n
  {
    if n.Node? {
      UnfoldsGrows(o.child, n.child, c, d);
      UnfoldsGrows(o.next, n.next, c, d);
    }
  }

  /** An object still being written: its links, except that of an open collection, lead to finished ones. */
  ghost predicate Holds(o: NodeObj, n: Node, linked: bool, c: set<NodeObj>)
    reads o, c
  {
    && n.Node? && o !in c && o.kind == n.kind && o.key == n.key && o.value == n.value && o.level == n.level
    && Unfolds(o.next, n.next, c) && (linked || Unfolds(o.child, n.child, c))
  }

  lemma HoldsGrows(o: NodeObj, n: Node, linked: bool, c: set<NodeObj>, d: set<NodeObj>)
    requires Holds(o, n, linked, c) && c <= d && o !in d
    ensures Holds(o, n, linked, d)
  {
    UnfoldsGrows(o.next, n.next, c, d);
    if !linked { UnfoldsGrows(o.child, n.child, c, d); }
  }

  /** With no current node, what is open is the stack. */
  ghost predicate OnStack(stack: seq<NodeObj>, ms: seq<Item>, d: set<NodeObj>)
    reads stack, d
  {
    && |stack| == |ms| && (forall i, j :: 0 <= i < j < |stack| ==> stack[i] != stack[j])
    && (forall i :: 0 <= i < |stack| ==> Holds(stack[i], ms[i].node, ms[i].linked, d))
    && (forall i :: 0 <= i < |stack| && ms[i].linked ==> i + 1 < |stack| && stack[i].child == stack[i + 1])
  }

  class Builder {
    var node: NodeObj?
    var stack: seq<NodeObj>          // wr_stack_t, top last
    var level: int
    ghost var finished: set<NodeObj>
    ghost var m: State

    /** The objects still being written, bottom of the stack first. */
    ghost function Open(): seq<NodeObj>
      reads this
    {
      if node == null then stack else stack + [node]
    }

    ghost predicate Valid()
      reads this, Open(), finished
    {
      var open := Open();
      && m.level == level && |m.stack| == |stack| && (node == null <==> m.node == Nil)
      && (forall i, j :: 0 <= i < j < |open| ==> open[i] != open[j])
      && (forall i :: 0 <= i < |stack| ==> Holds(stack[i], m.stack[i].node, m.stack[i].linked, finished))
      && (forall i :: 0 <= i < |stack| && m.stack[i].linked ==> i + 1 < |open| && stack[i].child == open[i + 1])
      && (node != null ==> Holds(open[|stack|], m.node, false, finished))
    }

    constructor ()
      ensures Valid() && m == START && finished == {}
    {
      node, stack, level := null, [], 0;
      finished, m := {}, START;
    }

    ghost function Done(): (d: set<NodeObj>)
      reads this
    {
      if node == null then finished else finished + {node}
    }

    /** The current node is not written any more. */
    lemma Finish()
      requires Valid()
      ensures Unfolds(node, m.node, Done())
      ensures forall i :: 0 <= i < |stack| ==> Holds(stack[i], m.stack[i].node, m.stack[i].linked, Done())
    {
      hide Unfolds, Holds;
      if node != null {
        assert Open()[|stack|] == node;
        forall i | 0 <= i < |stack| ensures Holds(stack[i], m.stack[i].node, m.stack[i].linked, Done()) {
          assert Open()[i] == stack[i];
          assert stack[i] !in finished by { Outside(stack[i], m.stack[i].node, m.stack[i].linked, finished); }
          HoldsGrows(stack[i], m.stack[i].node, m.stack[i].linked, finished, Done());
        }
        HoldsUnfolds(node, m.node, finished, Done());
      } else {
        UnfoldsNull(finished);
      }
    }

    method CreateChildNode(kind: Kind)
      requires Valid()
      modifies this, Open()
      ensures Valid() && m == CreateChild(old(m), kind) && Fresh()
    {
      hide Unfolds;
      UnfoldsNull(finished);
      var child := new NodeObj(kind, None, level + 1);
      if node != null {
        PushParent(child, kind);
      } else {
        level := level + 1;
        node := child;
        m := CreateChild(m, kind);
      }
    }

    /** The current node waits on the stack, linked to its first child. */
    method PushParent(child: NodeObj, kind: Kind)
      requires Valid() && node != null && child !in Open() && child !in finished
      requires Holds(child, Blank(kind, level + 1), false, finished)
      modifies this, node
      ensures Valid() && m == CreateChild(old(m), kind) && Open() == old(Open()) + [child]
    {
      hide Unfolds;
      ghost var open := Open();
      assert open[|stack|] == node && forall i :: 0 <= i < |stack| ==> open[i] == stack[i];
      level := level + 1;
      stack := stack + [node];
      node.child := child;
      node := child;
      m := CreateChild(m, kind);
      assert Open() == open + [child];
    }

    method CreateScalarNode(text: string)
      requires Valid()
      modifies this
      ensures Valid() && m == CreateScalar(old(m), text) && Fresh()
    {
      hide Unfolds, Holds;
      ghost var open := Open();
      TopKindIs();
      UnfoldsNull(finished);
      assert node != null ==> open[|stack|] == node;
      if node != null {
        stack := stack + [node];
      }
      var kind := if stack == [] then TypeNone else stack[|stack| - 1].kind;
      node := new NodeObj(kind, Some(text), level);
      m := CreateScalar(m, text);
      HoldsFresh(node, m.node, finished);
      assert Open() == open + [node];
    }

    /** The kind a new scalar node takes over. */
    lemma TopKindIs()
      requires Valid()
      ensures node != null ==> m.node.Node? && node.kind == m.node.kind
      ensures node == null ==> TopKind(m.stack) == if stack == [] then TypeNone else stack[|stack| - 1].kind
    {}

    static ghost predicate Popped(m: State, was: State) {
      |was.stack| > 0 && var n := |was.stack| - 1;
      was.stack[n].node.Node? && m == State(WithNext(was.stack[n], was.node), was.stack[..n], was.level)
    }

    /** One turn of the popping loop. */
    method PopSibling()
      requires Valid() && stack != []
      modifies this, Open()
      ensures Valid() && level == old(level) && |stack| < old(|stack|)
      ensures Open() <= old(Open())
      ensures Popped(m, old(m))
    {
      hide Unfolds;
      Finish();
      ghost var n, d := |stack| - 1, Done();
      ghost var open := Open();
      assert open[n] == stack[n];
      var head := stack[|stack| - 1];
      head.next := node;
      node := head;
      stack := stack[..|stack| - 1];
      finished := d;
      m := State(WithNext(m.stack[n], m.node), m.stack[..n], m.level);
      assert Open() == open[..n + 1];
    }

    lemma StackOnly()
      requires node == null && m.node == Nil && m.level == level && OnStack(stack, m.stack, finished)
      ensures Valid()
    {}

    /** The top of the stack and the current node, and the stack once the top has no open collection. */
    lemma TopFacts()
      requires Valid() && stack != []
      ensures m.level == level && |m.stack| == |stack|
      ensures Unfolds(node, m.node, Done()) && (node != null ==> Holds(node, m.node, false, finished))
      ensures var n := |stack| - 1;
        && Holds(stack[n], m.stack[n].node, m.stack[n].linked, finished)
        && Holds(stack[n], m.stack[n].node, m.stack[n].linked, Done())
        && (m.stack[n].linked ==> node != null && stack[n].child == node)
        && (!m.stack[n].linked ==> OnStack(stack, m.stack, Done()))
    {
      hide Unfolds, Holds;
      Finish();
      assert forall i :: 0 <= i < |stack| ==> Open()[i] == stack[i];
      assert node != null ==> Open()[|stack|] == node;
    }

    lemma TopChanged(t: Node)
      requires Valid() && stack != [] && |m.stack| == |stack| && Holds(stack[|stack| - 1], t, false, Done())
      ensures OnStack(stack, m.stack[|stack| - 1 := Item(t, false)], Done())
    {
      hide Unfolds, Holds;
      Finish();
      assert forall i :: 0 <= i < |stack| ==> Open()[i] == stack[i];
    }

    /** The end of set_sibling_nodes: one level down, link the finished siblings to it. */
    method LinkToParent()
      requires Valid()
      modifies this
      ensures Valid() && m == Link(old(m.node), old(m.stack), old(m.level) - 1) && Fresh()
    {
      hide Unfolds, Holds;
      if stack == [] {
        level := level - 1;
        m := m.(level := level);
      } else {
        LinkToTop();
      }
    }

    method LinkToTop()
      requires Valid() && stack != []
      modifies this
      ensures Valid() && m == Link(old(m.node), old(m.stack), old(m.level) - 1) && Fresh()
    {
      hide Unfolds, Holds, SameChild, Link, Valid, OnStack;
      TopFacts();
      LinkCases(m.node, m.stack, level - 1);
      ghost var n, d := |stack| - 1, Done();
      var head := stack[|stack| - 1];
      Comparison(head, m.stack[n], m.node, d);
      ghost var t := m.stack[n].node.(child := m.node);
      if head.child == node {
        Relinked(head, m.stack[n], m.node, d);
        TopChanged(t);
      }
      level := level - 1;
      if head.child != node {
        PushWrapper(head.kind, d);
      } else {
        m := State(Nil, m.stack[n := Item(t, false)], level);
      }
      node := null;
      finished := d;
      StackOnly();
    }

    /** A finished collection that nothing links to yet gets a node of its own. */
    method PushWrapper(kind: Kind, ghost d: set<NodeObj>)
      requires Unfolds(node, m.node, d) && OnStack(stack, m.stack, d)
      modifies `stack, `m
      ensures |stack| == |old(stack)| + 1 && stack[..|old(stack)|] == old(stack) && fresh(stack[|old(stack)|])
      ensures m == State(Nil, old(m.stack) + [Item(Node(kind, None, None, level, old(m.node), Nil), false)], level)
      ensures OnStack(stack, m.stack, d)
    {
      hide Unfolds, Holds;
      var wrapper := new NodeObj(kind, None, level);
      assert wrapper !in stack;
      wrapper.child := node;
      UnfoldsNull(d);
      ghost var n := Node(kind, None, None, level, m.node, Nil);
      HoldsFresh(wrapper, n, d);
      stack := stack + [wrapper];
      m := State(Nil, m.stack + [Item(n, false)], level);
    }

    /** Comparing pointers is comparing what the model remembers. */
    lemma Comparison(head: NodeObj, top: Item, n: Node, d: set<NodeObj>)
      requires Unfolds(node, n, d) && Holds(head, top.node, top.linked, finished)
      requires top.linked ==> node != null && head.child == node
      requires node != null ==> Holds(node, n, false, finished)
      ensures top.node.Node?
      ensures SameChild(top, n) <==> head.child == node
      ensures head.kind == top.node.kind && (node == null <==> n.Nil?)
    {
      UnfoldsIn(node, n, d);
      if !top.linked { UnfoldsIn(head.child, top.node.child, finished); }
    }

    lemma TopLevel()
      requires Valid() && stack != []
      ensures |m.stack| == |stack| && m.stack[|stack| - 1].node.Node?
      ensures m.stack[|stack| - 1].node.level == stack[|stack| - 1].level
    {}

    lemma SameSize()
      requires Valid()
      ensures m.level == level && |m.stack| == |stack|
    {}

    method SetSiblingNodes()
      requires Valid()
      modifies this, Open()
      ensures Valid() && m == SetSiblings(old(m)) && Fresh()
    {
      hide Valid;
      SameSize();
      while stack != [] && stack[|stack| - 1].level == level
        invariant Valid() && level == old(level) == m.level && |m.stack| == |stack| && Open() <= old(Open())
        invariant PopSiblings(m.node, m.stack, level) == PopSiblings(old(m.node), old(m.stack), level)
        decreases |stack|
      {
        TopLevel();
        PopSibling();
        SameSize();
      }
      if stack != [] { TopLevel(); }
      LinkToParent();
    }

    method OnScalarEvent(text: string)
      requires Valid()
      modifies this, Open()
      ensures Valid() && m == OnScalar(old(m), text) && Fresh()
    {
      hide Unfolds;
      assert forall i :: 0 <= i < |stack| ==> Open()[i] == stack[i];
      assert node != null ==> Open()[|stack|] == node;
      if node == null {
        CreateScalarNode(text);
      } else if node.key == None {
        node.key := Some(text);
        m := OnScalar(m, text);
      } else if node.kind == TypeList {
        CreateScalarNode(text);
      } else if node.value == None {
        node.value := Some(text);
        m := OnScalar(m, text);
      } else {
        CreateScalarNode(text);
      }
    }

    /** The switch over the event types. */
    method Handle(e: Event)
      requires Valid()
      modifies this, Open()
      ensures Valid() && m == Step(old(m), e) && Fresh()
    {
      hide Valid;
      match e {
        case ScalarEvent(t) => OnScalarEvent(t);
        case SequenceStart => CreateChildNode(TypeList);
        case MappingStart => CreateChildNode(TypeArray);
        case SequenceEnd => SetSiblingNodes();
        case MappingEnd => SetSiblingNodes();
      }
    }

    /** Only objects that were open before, or are new, are open. */
    twostate predicate Fresh()
      reads this
    {
      forall k :: 0 <= k < |Open()| ==> Open()[k] in old(Open()) || fresh(Open()[k])
    }
  }

  /** yaml_parse: one event after the other, then the root; nothing if libyaml reported an error. */
  method YamlParse(es: seq<Event>, complete: bool) returns (root: NodeObj?, ghost c: set<NodeObj>)
    ensures !complete ==> root == null
    ensures forall d :: complete && es == Events(d) ==>
      Unfolds(root, Root(d), c) && (Plain(d) ==> Unfolds(root, NaturalRoot(d), c))
  {
    hide Builder.Valid, Unfolds, Step, Root, Events, Plain, NaturalRoot;
    var b := new Builder();
    c := {};
    var i := 0;
    while i < |es|
      invariant 0 <= i <= |es| && b.Valid() && fresh(b)
      invariant forall k :: 0 <= k < |b.Open()| ==> fresh(b.Open()[k])
      invariant Run(b.m, es[i..]) == Run(START, es)
    {
      b.Handle(es[i]);
      RunFrom(es, i, b.m);
      i := i + 1;
    }
    RunNothing(b.m);
    b.SameSize();
    if !complete {
      return null, c;
    }
    forall d | es == Events(d)
      ensures b.m == State(Root(d), [], 0) && (Plain(d) ==> Root(d) == NaturalRoot(d))
    {
      DocumentRun(d);
      NaturalIfPlain(d);
    }
    b.Finish();
    c := b.Done();
    if |b.stack| == 1 { return b.stack[0], c; }
    return b.node, c;
  }

  lemma RunFrom(es: seq<Event>, i: nat, s: State)
    requires i < |es|
    ensures forall t :: Run(t, es[i..]) == Run(Step(t, es[i]), es[i + 1..])
  {
    assert es[i..][0] == es[i] && es[i..][1..] == es[i + 1..];
  }

  lemma Relinked(o: NodeObj, i: Item, child: Node, c: set<NodeObj>)
    requires Holds(o, i.node, i.linked, c) && Unfolds(o.child, child, c)
    ensures Holds(o, i.node.(child := child), false, c)
  {}

  lemma HoldsFresh(o: NodeObj, n: Node, c: set<NodeObj>)
    requires n.Node? && o !in c && o.kind == n.kind && o.key == n.key && o.value == n.value && o.level == n.level
    requires Unfolds(o.next, n.next, c) && Unfolds(o.child, n.child, c)
    ensures Holds(o, n, false, c)
  {}

  lemma LinkCases(node: Node, stack: seq<Item>, level: int)
    ensures stack == [] ==> Link(node, stack, level) == State(node, stack, level)
    ensures stack != [] && stack[|stack| - 1].node.Node? ==>
      var n, top := |stack| - 1, stack[|stack| - 1];
      Link(node, stack, level) ==
        if SameChild(top, node) then State(Nil, stack[n := Item(top.node.(child := node), false)], level)
        else State(Nil, stack + [Item(Node(top.node.kind, None, None, level, node, Nil), false)], level)
  {}

  lemma Outside(o: NodeObj, n: Node, linked: bool, c: set<NodeObj>)
    requires Holds(o, n, linked, c)
    ensures o !in c
  {}

  lemma HoldsUnfolds(o: NodeObj, n: Node, c: set<NodeObj>, d: set<NodeObj>)
    requires Holds(o, n, false, c) && d == c + {o}
    ensures Unfolds(o, n, d)
  {
    UnfoldsGrows(o.next, n.next, c, d);
    UnfoldsGrows(o.child, n.child, c, d);
  }

  lemma UnfoldsIn(o: NodeObj?, n: Node, c: set<NodeObj>)
    requires Unfolds(o, n, c)
    ensures (o == null <==> n.Nil?) && (o != null ==> o in c)
  {}

  lemma UnfoldsNull(c: set<NodeObj>)
    ensures Unfolds(null, Nil, c)
  {}
}
