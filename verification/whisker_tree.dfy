/**
 * The rule table ("whisker tree"): a root rule and a list of child rules.
 * `Node` is the value a tree stands for; `WhiskerNode` and `WhiskerTree`
 * are the linked objects the insertion and lookup walk and update in place.
 */
module WhiskerTrees {
  import opened Wrappers
  import opened NetworkMemory
  import opened WhiskerRules

  /** A tree node's value: its rule and the values of its children. */
  datatype Node = Node(whisker: Whisker, children: seq<Node>)

  /** An insertion met a node whose rule is not older than the new one. */
  datatype InsertError = GenerationConflict(generation: nat)

  /** No node on the search path contains the memory. */
  datatype LookupError = NotFound

  /** The root rule of a new tree: generation 0, increment 0, multiple 1, no spacing. */
  function RootRule(full: Range): Whisker {
    Whisker(0, 0, 1.0, 0.0, full)
  }

  function Fresh(full: Range): Node {
    Node(RootRule(full), [])
  }

  /** The rules of the children of `n`, in order. */
  function ChildRules(n: Node): (rs: seq<Whisker>)
    ensures |rs| == |n.children|
  {
    seq(|n.children|, i requires 0 <= i < |n.children| => n.children[i].whisker)
  }

  /** The rules of a one-level tree in search order: root first, then the children. */
  function Rules(n: Node): seq<Whisker> {
    [n.whisker] + ChildRules(n)
  }

  /** No child has children of its own. */
  predicate Flat(n: Node) {
    forall i :: 0 <= i < |n.children| ==> n.children[i].children == []
  }

  /** Index of the first rule whose domain intersects `d`, or -1 when there is none. */
  function FirstIntersecting(rs: seq<Whisker>, d: Range): (k: int)
    ensures -1 <= k < |rs|
    ensures 0 <= k ==> Intersects(rs[k].domain, d)
    ensures forall i :: 0 <= i < |rs| && (k < 0 || i < k) ==> !Intersects(rs[i].domain, d)
  {
    if rs == [] then -1
    else if Intersects(rs[0].domain, d) then 0
    else
      var k := FirstIntersecting(rs[1..], d);
      if k < 0 then -1 else k + 1
  }

  /** Index of the first rule whose domain contains `m`, or -1 when there is none. */
  function FirstContaining(rs: seq<Whisker>, m: State): (k: int)
    ensures -1 <= k < |rs|
    ensures 0 <= k ==> Contains(rs[k].domain, m)
    ensures forall i :: 0 <= i < |rs| && (k < 0 || i < k) ==> !Contains(rs[i].domain, m)
  {
    if rs == [] then -1
    else if Contains(rs[0].domain, m) then 0
    else
      var k := FirstContaining(rs[1..], m);
      if k < 0 then -1 else k + 1
  }

  /**
   * The insertion on tree values: a node whose domain intersects the new
   * rule's takes the rule if it is newer and refuses it otherwise; else the
   * first intersecting child receives it; else it becomes a new last leaf.
   */
  function InsertInto(n: Node, w: Whisker): Result<Node, InsertError>
    decreases n
  {
    if Intersects(n.whisker.domain, w.domain) then
      if n.whisker.generation >= w.generation then Failure(GenerationConflict(w.generation))
      else Success(Node(w, n.children))
    else
      var k := FirstIntersecting(ChildRules(n), w.domain);
      if k < 0 then Success(Node(n.whisker, n.children + [Node(w, [])]))
      else
        assert n.children[k] in n.children;
        match InsertInto(n.children[k], w)
        case Failure(e) => Failure(e)
        case Success(c) => Success(Node(n.whisker, n.children[k := c]))
  }

  /**
   * The lookup on tree values: the node itself when its domain contains
   * `m`, else the search continues in the first child whose domain
   * contains `m`, else nothing.
   */
  function FindIn(n: Node, m: State): Option<Node>
    decreases n
  {
    if Contains(n.whisker.domain, m) then Some(n)
    else
      var k := FirstContaining(ChildRules(n), m);
      if k < 0 then None
      else
        assert n.children[k] in n.children;
        FindIn(n.children[k], m)
  }

  lemma FirstIntersectingAfterHead(x: Whisker, rs: seq<Whisker>, d: Range)
    requires !Intersects(x.domain, d)
    ensures FirstIntersecting([x] + rs, d)
         == (if FirstIntersecting(rs, d) < 0 then -1 else FirstIntersecting(rs, d) + 1)
  {
    assert ([x] + rs)[1..] == rs;
  }

  lemma FirstContainingAfterHead(x: Whisker, rs: seq<Whisker>, m: State)
    requires !Contains(x.domain, m)
    ensures FirstContaining([x] + rs, m)
         == (if FirstContaining(rs, m) < 0 then -1 else FirstContaining(rs, m) + 1)
  {
    assert ([x] + rs)[1..] == rs;
  }

  /** The insertion's outcome on the rule list, as `InsertAsRuleList` states it. */
  predicate InsertsAsRuleList(n: Node, w: Whisker) {
    var rs := Rules(n);
    var i := FirstIntersecting(rs, w.domain);
    && (InsertInto(n, w).Success? <==> (i < 0 || rs[i].generation < w.generation))
    && (InsertInto(n, w).Failure? ==> InsertInto(n, w).error == GenerationConflict(w.generation))
    && (InsertInto(n, w).Success? ==>
          && Flat(InsertInto(n, w).value)
          && Rules(InsertInto(n, w).value) == if i < 0 then rs + [w] else rs[i := w])
  }

  lemma InsertAtRoot(n: Node, w: Whisker)
    requires Flat(n) && Intersects(n.whisker.domain, w.domain)
    ensures InsertsAsRuleList(n, w)
  {
    var rs := Rules(n);
    assert FirstIntersecting(rs, w.domain) == 0;
    if n.whisker.generation < w.generation {
      assert Rules(Node(w, n.children)) == rs[0 := w];
    }
  }

  lemma InsertBelowRoot(n: Node, w: Whisker)
    requires Flat(n) && !Intersects(n.whisker.domain, w.domain)
    ensures InsertsAsRuleList(n, w)
  {
    var rs := Rules(n);
    FirstIntersectingAfterHead(n.whisker, ChildRules(n), w.domain);
    var k := FirstIntersecting(ChildRules(n), w.domain);
    if k < 0 {
      var n' := Node(n.whisker, n.children + [Node(w, [])]);
      assert Rules(n') == rs + [w];
    } else {
      var c := n.children[k];
      assert c.whisker == ChildRules(n)[k] == rs[k + 1];
      assert c.children == [];
      if c.whisker.generation < w.generation {
        var n' := Node(n.whisker, n.children[k := Node(w, [])]);
        assert Rules(n') == rs[k + 1 := w];
      }
    }
  }

  /**
   * On a one-level tree the insertion is a first-match update of the rule
   * list: the first rule (root first) whose domain intersects the new one
   * decides; a newer rule replaces it in place (domain included), an older
   * or equal one is refused, and with no intersecting rule the new rule is
   * appended. The tree stays one level deep.
   */
  lemma InsertAsRuleList(n: Node, w: Whisker)
    requires Flat(n)
    ensures var rs := Rules(n);
            var i := FirstIntersecting(rs, w.domain);
            && (InsertInto(n, w).Success? <==> (i < 0 || rs[i].generation < w.generation))
            && (InsertInto(n, w).Failure? ==> InsertInto(n, w).error == GenerationConflict(w.generation))
            && (InsertInto(n, w).Success? ==>
                  && Flat(InsertInto(n, w).value)
                  && Rules(InsertInto(n, w).value) == if i < 0 then rs + [w] else rs[i := w])
  {
    if Intersects(n.whisker.domain, w.domain) {
      InsertAtRoot(n, w);
    } else {
      InsertBelowRoot(n, w);
    }
  }

  /**
   * The lookup visits the root, then only the direct children in order:
   * it finds the rule at the first position of the rule list whose domain
   * contains `m`, and nothing when no such position exists.
   */
  lemma FindAsRuleList(n: Node, m: State)
    ensures var i := FirstContaining(Rules(n), m);
            && (FindIn(n, m).Some? <==> 0 <= i)
            && (0 <= i ==> FindIn(n, m).value.whisker == Rules(n)[i])
  {
    if !Contains(n.whisker.domain, m) {
      FirstContainingAfterHead(n.whisker, ChildRules(n), m);
      var k := FirstContaining(ChildRules(n), m);
      if 0 <= k {
        assert Contains(n.children[k].whisker.domain, m);
      }
    }
  }

  /** A successful lookup returns a node whose domain contains the memory. */
  lemma FindContains(n: Node, m: State)
    requires FindIn(n, m).Some?
    ensures Contains(FindIn(n, m).value.whisker.domain, m)
  {
    FindAsRuleList(n, m);
  }

  /** The lookup fails exactly when neither the root nor any direct child contains the memory. */
  lemma FindFailsIff(n: Node, m: State)
    ensures FindIn(n, m).None?
        <==> (!Contains(n.whisker.domain, m)
              && forall i :: 0 <= i < |n.children| ==> !Contains(n.children[i].whisker.domain, m))
  {
    FindAsRuleList(n, m);
    var rs := Rules(n);
    forall i | 0 <= i < |n.children|
      ensures n.children[i].whisker == rs[i + 1]
    {
    }
  }

  /**
   * After a successful insertion, looking up any memory inside the new
   * rule's domain finds the new rule: no rule before it in search order
   * intersects its domain.
   */
  lemma InsertThenFind(n: Node, w: Whisker, m: State)
    requires Flat(n) && InsertInto(n, w).Success? && Contains(w.domain, m)
    ensures FindIn(InsertInto(n, w).value, m).Some?
    ensures FindIn(InsertInto(n, w).value, m).value.whisker == w
  {
    InsertAsRuleList(n, w);
    var rs := Rules(n);
    var i := FirstIntersecting(rs, w.domain);
    var n' := InsertInto(n, w).value;
    var rs' := Rules(n');
    var at := if i < 0 then |rs| else i;
    assert rs'[at] == w;
    forall j | 0 <= j < at
      ensures !Contains(rs'[j].domain, m)
    {
      assert rs'[j] == rs[j];
      if Contains(rs[j].domain, m) {
        CommonPointIntersects(rs[j].domain, w.domain, m);
      }
    }
    FindAsRuleList(n', m);
  }

  /** A one-level tree node object: its rule and its children, both updated in place. */
  class WhiskerNode {
    var whisker: Whisker
    var children: seq<WhiskerNode>

    constructor (w: Whisker)
      ensures whisker == w && children == []
    {
      whisker := w;
      children := [];
    }
  }

  /**
   * The rule table. `Shape` is the tree value the objects stand for; every
   * tree built by the constructor and `Insert` is one level deep.
   */
  class WhiskerTree {
    var root: WhiskerNode
    ghost var Shape: Node
    ghost var Repr: set<object>

    ghost predicate Valid()
      reads this, Repr
    {
      && this in Repr && root in Repr
      && (forall i :: 0 <= i < |root.children| ==>
            root.children[i] in Repr && root.children[i] != root && root.children[i].children == [])
      && (forall i, j :: 0 <= i < j < |root.children| ==> root.children[i] != root.children[j])
      && Shape.whisker == root.whisker
      && |Shape.children| == |root.children|
      && (forall i :: 0 <= i < |root.children| ==> Shape.children[i] == Node(root.children[i].whisker, []))
    }

    /** NewWhiskerTree: a root rule over the whole memory space and no children. */
    constructor (full: Range)
      ensures Valid() && fresh(Repr)
      ensures Shape == Fresh(full)
      ensures root.whisker == RootRule(full) && root.children == []
    {
      root := new WhiskerNode(RootRule(full));
      Shape := Fresh(full);
      Repr := {this, root};
    }

    lemma ValidIsFlat()
      requires Valid()
      ensures Flat(Shape)
      ensures forall i :: 0 <= i < |root.children| ==> ChildRules(Shape)[i] == root.children[i].whisker
    {
    }

    /**
     * Insert: the rule goes where `InsertInto` puts it; a refused rule
     * leaves every object as it was.
     */
    method Insert(w: Whisker) returns (err: Option<InsertError>)
      requires Valid()
      modifies Repr
      ensures Valid() && fresh(Repr - old(Repr))
      ensures match InsertInto(old(Shape), w)
              case Success(n) => err == None && Shape == n
              case Failure(e) => err == Some(e) && Shape == old(Shape)
      ensures err.Some? ==> unchanged(old(Repr))
    {
      err := insert(root, w, -1);
    }

    /**
     * The recursive step, at the root (`at` = -1) or at child `at`, which
     * the root's search reaches only when the child's domain intersects.
     */
    method insert(node: WhiskerNode, w: Whisker, ghost at: int) returns (err: Option<InsertError>)
      requires Valid()
      requires -1 <= at < |root.children|
      requires at == -1 ==> node == root
      requires 0 <= at ==> node == root.children[at] && Intersects(node.whisker.domain, w.domain)
      modifies Repr
      decreases if at < 0 then 1 else 0
      ensures Valid() && fresh(Repr - old(Repr))
      ensures at == -1 ==>
                match InsertInto(old(Shape), w)
                case Success(n) => err == None && Shape == n
                case Failure(e) => err == Some(e) && Shape == old(Shape)
      ensures 0 <= at ==>
                match InsertInto(old(Shape).children[at], w)
                case Success(c) => err == None && Shape == old(Shape).(children := old(Shape).children[at := c])
                case Failure(e) => err == Some(e) && Shape == old(Shape)
      ensures err.Some? ==> unchanged(old(Repr))
    {
      if Intersects(node.whisker.domain, w.domain) {
        if node.whisker.generation >= w.generation {
          return Some(GenerationConflict(w.generation));
        }
        node.whisker := w;
        if at < 0 {
          Shape := Shape.(whisker := w);
        } else {
          Shape := Shape.(children := Shape.children[at := Node(w, [])]);
        }
        return None;
      }
      ValidIsFlat();
      var i := 0;
      while i < |node.children|
        invariant 0 <= i <= |node.children|
        invariant forall j :: 0 <= j < i ==> !Intersects(node.children[j].whisker.domain, w.domain)
      {
        if Intersects(node.children[i].whisker.domain, w.domain) {
          assert FirstIntersecting(ChildRules(Shape), w.domain) == i;
          err := insert(node.children[i], w, i);
          return;
        }
        i := i + 1;
      }
      assert FirstIntersecting(ChildRules(Shape), w.domain) == -1;
      var leaf := new WhiskerNode(w);
      node.children := node.children + [leaf];
      Repr := Repr + {leaf};
      Shape := Shape.(children := Shape.children + [Node(w, [])]);
      err := None;
    }

    /** FindWhisker: the rule of the node `FindIn` reaches, or `NotFound`. */
    method FindWhisker(m: State) returns (r: Result<Whisker, LookupError>)
      requires Valid()
      ensures FindIn(Shape, m).None? ==> r == Failure(NotFound)
      ensures FindIn(Shape, m).Some? ==> r == Success(FindIn(Shape, m).value.whisker)
    {
      var node := findNode(root, m, -1);
      if node == null {
        return Failure(NotFound);
      }
      return Success(node.whisker);
    }

    /** The recursive search, at the root (`at` = -1) or at child `at`, which contains `m`. */
    method findNode(node: WhiskerNode, m: State, ghost at: int) returns (r: WhiskerNode?)
      requires Valid()
      requires -1 <= at < |root.children|
      requires at == -1 ==> node == root
      requires 0 <= at ==> node == root.children[at] && Contains(node.whisker.domain, m)
      decreases if at < 0 then 1 else 0
      ensures at == -1 ==> (r == null <==> FindIn(Shape, m).None?)
      ensures at == -1 && r != null ==> r.whisker == FindIn(Shape, m).value.whisker
      ensures at == -1 && Contains(root.whisker.domain, m) ==> r == root
      ensures at == -1 && !Contains(root.whisker.domain, m) ==>
                var k := FirstContaining(ChildRules(Shape), m);
                (k < 0 ==> r == null) && (0 <= k < |root.children| ==> r == root.children[k])
      ensures 0 <= at ==> r == node
    {
      if Contains(node.whisker.domain, m) {
        return node;
      }
      ValidIsFlat();
      var i := 0;
      while i < |node.children|
        invariant 0 <= i <= |node.children|
        invariant forall j :: 0 <= j < i ==> !Contains(node.children[j].whisker.domain, m)
      {
        if Contains(node.children[i].whisker.domain, m) {
          assert FirstContaining(ChildRules(Shape), m) == i;
          r := findNode(node.children[i], m, i);
          return;
        }
        i := i + 1;
      }
      assert FirstContaining(ChildRules(Shape), m) == -1;
      return null;
    }
  }

  /**
   * The insert loop of LoadWhiskers on tree values: the rules go in one by
   * one, in order, and the first refusal ends the load with its error.
   */
  function LoadInto(n: Node, rules: seq<Whisker>): Result<Node, InsertError>
    decreases |rules|
  {
    if rules == [] then Success(n)
    else
      match InsertInto(n, rules[0])
      case Failure(e) => Failure(e)
      case Success(n') => LoadInto(n', rules[1..])
  }

  /** Loading `a + b` is loading `a`, then, if that succeeded, loading `b`. */
  lemma {:induction false} LoadSplit(n: Node, a: seq<Whisker>, b: seq<Whisker>)
    ensures LoadInto(n, a + b)
         == match LoadInto(n, a)
            case Failure(e) => Failure(e)
            case Success(n') => LoadInto(n', b)
    decreases |a|
  {
    if a == [] {
      assert a + b == b;
    } else {
      assert (a + b)[0] == a[0];
      assert (a + b)[1..] == a[1..] + b;
      match InsertInto(n, a[0])
      case Failure(e) =>
      case Success(n') => LoadSplit(n', a[1..], b);
    }
  }

  /**
   * A load fails exactly at the first refused rule: with the rules before
   * it loaded into `t`, inserting rule `i` into `t` fails with the load's error.
   */
  lemma {:induction false} LoadStopsAtFirstRefusal(n: Node, rules: seq<Whisker>)
    requires LoadInto(n, rules).Failure?
    ensures exists i, t :: 0 <= i < |rules| && LoadInto(n, rules[..i]) == Success(t)
                        && InsertInto(t, rules[i]) == Failure(LoadInto(n, rules).error)
    decreases |rules|
  {
    assert rules[..0] == [];
    match InsertInto(n, rules[0])
    case Failure(e) =>
      assert LoadInto(n, rules[..0]) == Success(n);
    case Success(n') =>
      LoadStopsAtFirstRefusal(n', rules[1..]);
      var i, t :| 0 <= i < |rules[1..]| && LoadInto(n', rules[1..][..i]) == Success(t)
                 && InsertInto(t, rules[1..][i]) == Failure(LoadInto(n', rules[1..]).error);
      assert rules[..i + 1][0] == rules[0];
      assert rules[..i + 1][1..] == rules[1..][..i];
      assert LoadInto(n, rules[..i + 1]) == Success(t);
  }

  /** Every tree the load builds from a one-level tree is one level deep. */
  lemma {:induction false} LoadKeepsFlat(n: Node, rules: seq<Whisker>)
    requires Flat(n) && LoadInto(n, rules).Success?
    ensures Flat(LoadInto(n, rules).value)
    decreases |rules|
  {
    if rules != [] {
      InsertAsRuleList(n, rules[0]);
      LoadKeepsFlat(InsertInto(n, rules[0]).value, rules[1..]);
    }
  }

  /**
   * LoadWhiskers without the file and decoding: a fresh tree over `full`,
   * then every rule inserted in order; the first refusal returns its error
   * and no tree.
   */
  method LoadWhiskers(full: Range, rules: seq<Whisker>) returns (r: Result<WhiskerTree, InsertError>)
    ensures LoadInto(Fresh(full), rules).Failure? ==> r == Failure(LoadInto(Fresh(full), rules).error)
    ensures LoadInto(Fresh(full), rules).Success? ==>
              && r.Success? && fresh(r.value) && r.value.Valid()
              && r.value.Shape == LoadInto(Fresh(full), rules).value
  {
    var tree := new WhiskerTree(full);
    var i := 0;
    while i < |rules|
      invariant 0 <= i <= |rules|
      invariant tree.Valid() && fresh(tree.Repr)
      invariant LoadInto(tree.Shape, rules[i..]) == LoadInto(Fresh(full), rules)
    {
      assert rules[i..][0] == rules[i] && rules[i..][1..] == rules[i + 1..];
      var err := tree.Insert(rules[i]);
      if err.Some? {
        return Failure(err.value);
      }
      i := i + 1;
    }
    assert rules[i..] == [];
    return Success(tree);
  }
}
