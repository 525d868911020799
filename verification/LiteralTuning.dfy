/**
 * Tuning one literal of a heuristic's syntax tree, and the structure and literal checks that
 * accept a parameter mutation. A tuned tree is printed, and the checks parse that text again;
 * this gives the tree back unless it holds a negative number, which is read as a minus sign
 * in front of a positive one.
 */
module LiteralTuning {
  import opened Common

  datatype Literal = Int(whole: int) | Float(number: real) | Imaginary(real) | Bool(bool) | Str(text: string) | NoLiteral | OtherLiteral(Id)

  /** The children of an assignment are its `targets` and then its value. */
  datatype Kind = Assign(targets: nat) | AnnAssign | Compare | Plain(tag: Id)

  datatype Node = Constant(value: Literal) | Name(id: string) | Branch(kind: Kind, children: seq<Node>)

  const PROTECTED: set<string> := {"used_budget", "lives", "cursor", "before", "maxlives", "budget"}

  /**
   * What a transformer looks for: a number, or an infinity spelt as a string. `sum` is how the
   * machine adds a hundredth of the delta to a floating-point number, with its rounding.
   */
  datatype Mode = Number(delta: int, sum: real -> real) | Infinity

  function LowerCase(s: string): string {
    if s == [] then []
    else
      var c := s[|s| - 1];
      LowerCase(s[..|s| - 1]) + [if 'A' <= c <= 'Z' then c - 'A' + 'a' else c]
  }

  predicate Matches(mode: Mode, v: Literal) {
    match mode
    case Number(_, _) => v.Int? || v.Float?
    case Infinity => v.Str? && LowerCase(v.text) == "inf"
  }

  function Tuned(mode: Mode, v: Literal): Literal
    requires Matches(mode, v)
  {
    match mode
    case Number(delta, sum) =>
      (match v
       case Int(i) => Int(i + Max(1, delta))
       case Float(x) => Float(sum(x))
       case _ => v)
    case Infinity => Str("Infinity")
  }

  predicate NamesProtected(nodes: seq<Node>) {
    exists k :: 0 <= k < |nodes| && nodes[k].Name? && nodes[k].id in PROTECTED
  }

  /** Assignments to and comparisons with book-keeping variables are left alone. */
  predicate Protects(mode: Mode, n: Node)
    requires n.Branch?
  {
    mode.Number? &&
    match n.kind
    case Assign(targets) => NamesProtected(n.children[..if targets <= |n.children| then targets else |n.children|])
    case AnnAssign => NamesProtected(n.children[..if n.children == [] then 0 else 1])
    case Compare => NamesProtected(n.children)
    case Plain(_) => false
  }

  /** Integers move by the delta, but at least by one; an infinity gets another spelling. */
  lemma TunedIs(mode: Mode, v: Literal)
    requires Matches(mode, v)
    ensures mode.Number? && v.Int? ==> Tuned(mode, v) == Int(v.whole + if mode.delta > 1 then mode.delta else 1)
    ensures mode.Number? && v.Float? ==> Tuned(mode, v) == Float(mode.sum(v.number))
    ensures mode.Infinity? ==> Tuned(mode, v) == Str("Infinity")
  {
  }

  /** Numbers are integers and floats, not truth values; an infinity is the word in any case. */
  lemma MatchesIff(mode: Mode, v: Literal)
    ensures mode.Number? ==> (Matches(mode, v) <==> v.Int? || v.Float?)
    ensures mode.Infinity? ==>
              (Matches(mode, v) <==>
                 && v.Str? && |v.text| == 3 && (v.text[0] == 'i' || v.text[0] == 'I')
                 && (v.text[1] == 'n' || v.text[1] == 'N') && (v.text[2] == 'f' || v.text[2] == 'F'))
  {
    if mode.Infinity? && v.Str? { LowerCaseAt(v.text); }
  }

  lemma {:induction false} LowerCaseAt(s: string)
    ensures |LowerCase(s)| == |s|
    ensures forall k :: 0 <= k < |s| ==> LowerCase(s)[k] == if 'A' <= s[k] <= 'Z' then s[k] - 'A' + 'a' else s[k]
  {
    if s != [] { LowerCaseAt(s[..|s| - 1]); }
  }

  /** The book-keeping variables of the reference heuristics. */
  predicate IsBookkeeping(n: Node) {
    n.Name? &&
    (n.id == "used_budget" || n.id == "lives" || n.id == "cursor" || n.id == "before" || n.id == "maxlives" || n.id == "budget")
  }

  /** A target of an assignment, or either side of a comparison. */
  predicate Guards(kind: Kind, k: nat) {
    kind.Compare? || (kind.AnnAssign? && k == 0) || (kind.Assign? && k < kind.targets)
  }

  /**
   * A tuner of numbers leaves alone assignments to one of them, annotated assignments to one
   * of them, and comparisons in which one of them takes part; a tuner of infinities nothing.
   */
  lemma ProtectsIff(mode: Mode, n: Node)
    requires n.Branch?
    ensures Protects(mode, n) <==>
            mode.Number? && exists k :: 0 <= k < |n.children| && IsBookkeeping(n.children[k]) && Guards(n.kind, k)
  {
    if mode.Number? {
      var named := n.children[..match n.kind
                                case Assign(targets) => if targets <= |n.children| then targets else |n.children|
                                case AnnAssign => if n.children == [] then 0 else 1
                                case Compare => |n.children|
                                case Plain(_) => 0];
      assert forall k :: 0 <= k < |named| ==> named[k] == n.children[k];
      assert n.kind.Compare? ==> named == n.children;
    }
  }

  // ---------------------------------------------------------------- the transformer

  /** A depth-first visit that threads the `changed` flag. */
  function Visit(mode: Mode, n: Node, changed: bool): (Node, bool)
    decreases n, if n.Branch? then |n.children| + 1 else 0
  {
    match n
    case Constant(v) => if !changed && Matches(mode, v) then (Constant(Tuned(mode, v)), true) else (n, changed)
    case Name(_) => (n, changed)
    case Branch(kind, children) =>
      if Protects(mode, n) then (n, changed)
      else
        var (visited, c) := VisitChildren(mode, n, |children|, changed);
        (Branch(kind, visited), c)
  }

  function VisitChildren(mode: Mode, n: Node, k: nat, changed: bool): (r: (seq<Node>, bool))
    requires n.Branch? && k <= |n.children|
    ensures |r.0| == k
    decreases n, k
  {
    if k == 0 then ([], changed)
    else
      var (before, c) := VisitChildren(mode, n, k - 1, changed);
      var (child, c') := Visit(mode, n.children[k - 1], c);
      (before + [child], c')
  }

  class Transformer {
    const mode: Mode
    var changed: bool

    constructor (mode: Mode)
      ensures this.mode == mode && !changed
    {
      this.mode, changed := mode, false;
    }

    method Transform(n: Node) returns (m: Node)
      modifies this
      ensures (m, changed) == Visit(mode, n, old(changed))
      decreases n
    {
      match n {
        case Constant(v) =>
          if !changed && Matches(mode, v) {
            changed := true;
            return Constant(Tuned(mode, v));
          }
          return n;
        case Name(_) =>
          return n;
        case Branch(kind, children) =>
          if Protects(mode, n) { return n; }
          var visited: seq<Node> := [];
          for k := 0 to |children|
            invariant (visited, changed) == VisitChildren(mode, n, k, old(changed))
          {
            var child := Transform(children[k]);
            visited := visited + [child];
          }
          return Branch(kind, visited);
      }
    }
  }

  // ---------------------------------------------------------------- places in a tree

  /** The node that a path of child indices leads to. */
  function At(n: Node, path: seq<nat>): Option<Node>
    decreases |path|
  {
    if path == [] then Some(n)
    else if n.Branch? && path[0] < |n.children| then At(n.children[path[0]], path[1..])
    else None
  }

  function Replace(n: Node, path: seq<nat>, leaf: Node): Node
    requires At(n, path).Some?
    decreases |path|
  {
    if path == [] then leaf
    else Branch(n.kind, n.children[path[0] := Replace(n.children[path[0]], path[1..], leaf)])
  }

  /** No node on the way is protected. */
  predicate Reachable(mode: Mode, n: Node, path: seq<nat>)
    requires At(n, path).Some?
    decreases |path|
  {
    path == [] || (!Protects(mode, n) && Reachable(mode, n.children[path[0]], path[1..]))
  }

  /** A literal that may be tuned. */
  predicate Tunable(mode: Mode, n: Node, path: seq<nat>) {
    At(n, path).Some? && At(n, path).value.Constant? && Matches(mode, At(n, path).value.value) &&
    Reachable(mode, n, path)
  }

  /** Depth-first order of paths. */
  predicate NotAfter(p: seq<nat>, q: seq<nat>)
    decreases |p|
  {
    p == [] || (q != [] && (p[0] < q[0] || (p[0] == q[0] && NotAfter(p[1..], q[1..]))))
  }

  lemma TunableChild(mode: Mode, n: Node, path: seq<nat>)
    requires n.Branch? && path != []
    ensures Tunable(mode, n, path) <==>
            !Protects(mode, n) && path[0] < |n.children| && Tunable(mode, n.children[path[0]], path[1..])
  {
  }

  lemma {:induction false} VisitedOnce(mode: Mode, n: Node)
    ensures Visit(mode, n, true) == (n, true)
    decreases n, if n.Branch? then |n.children| + 1 else 0
  {
    if n.Branch? {
      VisitedChildrenOnce(mode, n, 0, |n.children|, true);
      assert [] + n.children[0..|n.children|] == n.children;
    }
  }

  /** Once the flag is set the remaining children stay as they are. */
  lemma {:induction false} VisitedChildrenOnce(mode: Mode, n: Node, j: nat, k: nat, changed: bool)
    requires n.Branch? && j <= k <= |n.children| && VisitChildren(mode, n, j, changed).1
    ensures VisitChildren(mode, n, k, changed) == (VisitChildren(mode, n, j, changed).0 + n.children[j..k], true)
    decreases n, k
  {
    if j < k {
      VisitedChildrenOnce(mode, n, j, k - 1, changed);
      VisitedOnce(mode, n.children[k - 1]);
      var before := VisitChildren(mode, n, j, changed).0;
      assert before + n.children[j..k - 1] + [n.children[k - 1]] == before + n.children[j..k];
    } else {
      assert VisitChildren(mode, n, k, changed).0 + n.children[j..k] == VisitChildren(mode, n, k, changed).0;
    }
  }

  /**
   * The transformer reports a change exactly when there is a tunable literal. It then tunes
   * the first one in depth-first order and changes nothing else; otherwise nothing changes.
   */
  lemma {:induction false} TunesFirst(mode: Mode, n: Node) returns (path: seq<nat>)
    ensures Visit(mode, n, false).1 ==>
              && Tunable(mode, n, path)
              && Visit(mode, n, false).0 == Replace(n, path, Constant(Tuned(mode, At(n, path).value.value)))
              && forall q :: Tunable(mode, n, q) ==> NotAfter(path, q)
    ensures !Visit(mode, n, false).1 ==> Visit(mode, n, false).0 == n && forall q :: !Tunable(mode, n, q)
    decreases n, if n.Branch? then |n.children| + 1 else 0
  {
    path := [];
    if n.Branch? {
      forall q | Tunable(mode, n, q) ensures q != [] && !Protects(mode, n) {}
      if !Protects(mode, n) {
        var k, inner := FirstChild(mode, n, |n.children|);
        if k < |n.children| {
          path := [k] + inner;
          ChildTuned(mode, n, k, inner);
          ChildComesFirst(mode, n, k, inner);
        } else {
          assert n.children[..|n.children|] == n.children;
          NoChildTunable(mode, n);
        }
      }
    } else {
      forall q | q != [] ensures !Tunable(mode, n, q) {}
    }
  }

  /** Tuning the one child in which a literal is found tunes the tree. */
  lemma ChildTuned(mode: Mode, n: Node, k: nat, inner: seq<nat>)
    requires n.Branch? && !Protects(mode, n) && k < |n.children| && Tunable(mode, n.children[k], inner)
    requires VisitChildren(mode, n, k + 1, false) == (n.children[..k] + [Visit(mode, n.children[k], false).0], true)
    requires Visit(mode, n.children[k], false).0 ==
             Replace(n.children[k], inner, Constant(Tuned(mode, At(n.children[k], inner).value.value)))
    ensures Visit(mode, n, false).1 && Tunable(mode, n, [k] + inner)
    ensures Visit(mode, n, false).0 == Replace(n, [k] + inner, Constant(Tuned(mode, At(n, [k] + inner).value.value)))
  {
    var path := [k] + inner;
    assert path[1..] == inner && path[0] == k;
    TunableChild(mode, n, path);
    assert At(n, path) == At(n.children[k], inner);
    VisitedChildrenOnce(mode, n, k + 1, |n.children|, false);
    assert n.children[..k] + [Visit(mode, n.children[k], false).0] + n.children[k + 1..] ==
           n.children[k := Visit(mode, n.children[k], false).0];
  }

  lemma NoChildTunable(mode: Mode, n: Node)
    requires n.Branch? && forall i, q :: 0 <= i < |n.children| ==> !Tunable(mode, n.children[i], q)
    ensures forall q :: !Tunable(mode, n, q)
  {
    forall q ensures !Tunable(mode, n, q) {
      if q != [] { TunableChild(mode, n, q); }
    }
  }

  lemma ChildComesFirst(mode: Mode, n: Node, k: nat, inner: seq<nat>)
    requires n.Branch? && k < |n.children|
    requires forall q :: Tunable(mode, n.children[k], q) ==> NotAfter(inner, q)
    requires forall i, q :: 0 <= i < k ==> !Tunable(mode, n.children[i], q)
    ensures forall q :: Tunable(mode, n, q) ==> NotAfter([k] + inner, q)
  {
    var path := [k] + inner;
    assert path[1..] == inner;
    forall q | Tunable(mode, n, q) ensures NotAfter(path, q) {
      assert q != [];
      TunableChild(mode, n, q);
    }
  }

  /** The first of the first `m` children with a tunable literal; `k` is the number of children if none has. */
  lemma {:induction false} FirstChild(mode: Mode, n: Node, m: nat) returns (k: nat, inner: seq<nat>)
    requires n.Branch? && m <= |n.children|
    ensures k < m || k == |n.children|
    ensures k < m ==>
              && VisitChildren(mode, n, k, false) == (n.children[..k], false)
              && VisitChildren(mode, n, k + 1, false) == (n.children[..k] + [Visit(mode, n.children[k], false).0], true)
              && Tunable(mode, n.children[k], inner)
              && Visit(mode, n.children[k], false).0 ==
                 Replace(n.children[k], inner, Constant(Tuned(mode, At(n.children[k], inner).value.value)))
              && (forall q :: Tunable(mode, n.children[k], q) ==> NotAfter(inner, q))
              && (forall i, q :: 0 <= i < k ==> !Tunable(mode, n.children[i], q))
    ensures k == |n.children| ==>
              && VisitChildren(mode, n, m, false) == (n.children[..m], false)
              && (forall i, q :: 0 <= i < m ==> !Tunable(mode, n.children[i], q))
    decreases n, m
  {
    k, inner := |n.children|, [];
    if m > 0 {
      k, inner := FirstChild(mode, n, m - 1);
      if k == |n.children| {
        var path := TunesFirst(mode, n.children[m - 1]);
        assert n.children[..m] == n.children[..m - 1] + [n.children[m - 1]];
        if Visit(mode, n.children[m - 1], false).1 { k, inner := m - 1, path; }
      }
    } else {
      assert n.children[..0] == [];
    }
  }

  // ---------------------------------------------------------------- the checks of a parameter mutation

  /** The literal's class; the constructor arguments are erased. */
  function Class(v: Literal): Literal {
    match v
    case Int(_) => Str("<number>")
    case Float(_) => Str("<number>")
    case Imaginary(_) => Str("<number>")
    case Bool(_) => Str("<bool>")
    case Str(_) => Str("<string>")
    case NoLiteral => Str("<none>")
    case OtherLiteral(_) => Str("<constant>")
  }

  /** Literals are told apart by what kind of value they are, and by nothing else. */
  lemma ClassIff(v: Literal, w: Literal)
    ensures Class(v) == Class(w) <==>
            || (IsNumber(v) && IsNumber(w)) || (v.Bool? && w.Bool?) || (v.Str? && w.Str?)
            || (v.NoLiteral? && w.NoLiteral?) || (v.OtherLiteral? && w.OtherLiteral?)
  {
  }

  predicate IsNumber(v: Literal) {
    v.Int? || v.Float? || v.Imaginary?
  }

  /** The tree with every literal replaced by its class. */
  function Normalised(n: Node): (m: Node)
    ensures m.Branch? == n.Branch? && (n.Branch? ==> |m.children| == |n.children|)
  {
    match n
    case Constant(v) => Constant(Class(v))
    case Name(_) => n
    case Branch(kind, children) =>
      Branch(kind, seq(|children|, k requires 0 <= k < |children| => Normalised(children[k])))
  }

  function Size(n: Node): (s: nat)
    ensures s >= 1
    decreases n, if n.Branch? then |n.children| + 1 else 0
  {
    if n.Branch? then 1 + ChildrenSize(n, |n.children|) else 1
  }

  function ChildrenSize(n: Node, k: nat): nat
    requires n.Branch? && k <= |n.children|
    decreases n, k
  {
    if k == 0 then 0 else ChildrenSize(n, k - 1) + Size(n.children[k - 1])
  }

  function ForestSize(queue: seq<Node>): nat {
    if queue == [] then 0 else ForestSize(queue[..|queue| - 1]) + Size(queue[|queue| - 1])
  }

  lemma {:induction false} ForestSizeSplits(a: seq<Node>, b: seq<Node>)
    ensures ForestSize(a + b) == ForestSize(a) + ForestSize(b)
    decreases |b|
  {
    if b == [] {
      assert a + b == a;
    } else {
      assert (a + b)[..|a + b| - 1] == a + b[..|b| - 1];
      ForestSizeSplits(a, b[..|b| - 1]);
    }
  }

  lemma {:induction false} ForestOfChildren(n: Node, k: nat)
    requires n.Branch? && k <= |n.children|
    ensures ForestSize(n.children[..k]) == ChildrenSize(n, k)
    decreases k
  {
    if k > 0 {
      ForestOfChildren(n, k - 1);
      assert n.children[..k][..k - 1] == n.children[..k - 1];
    }
  }

  function ChildNodes(n: Node): seq<Node> {
    if n.Branch? then n.children else []
  }

  /** Taking the first node of the queue and adding its children makes the forest smaller. */
  lemma QueueShrinks(queue: seq<Node>)
    requires queue != []
    ensures ForestSize(queue[1..] + ChildNodes(queue[0])) == ForestSize(queue) - 1
  {
    var n := queue[0];
    assert queue == [n] + queue[1..];
    ForestSizeSplits([n], queue[1..]);
    ForestSizeSplits(queue[1..], ChildNodes(n));
    assert [n][..0] == [];
    if n.Branch? {
      ForestOfChildren(n, |n.children|);
      assert n.children[..|n.children|] == n.children;
    }
  }

  /** The literals of a forest, breadth first. */
  function Literals(queue: seq<Node>): seq<Literal>
    decreases ForestSize(queue)
  {
    if queue == [] then []
    else
      QueueShrinks(queue);
      (if queue[0].Constant? then [queue[0].value] else []) + Literals(queue[1..] + ChildNodes(queue[0]))
  }

  /** The walk with its queue. */
  method LiteralSignature(tree: Node) returns (signature: seq<Literal>)
    ensures signature == Literals([tree])
  {
    hide Literals;
    hide ForestSize;
    signature := [];
    var queue := [tree];
    NoLiterals();
    while queue != []
      invariant signature + Literals(queue) == Literals([tree])
      decreases ForestSize(queue)
    {
      QueueShrinks(queue);
      NextLiteral(queue);
      var node := queue[0];
      if node.Constant? { signature := signature + [node.value]; }
      queue := queue[1..] + ChildNodes(node);
    }
  }

  lemma NoLiterals()
    ensures Literals([]) == []
  {
  }

  lemma NextLiteral(queue: seq<Node>)
    requires queue != []
    ensures Literals(queue) == (if queue[0].Constant? then [queue[0].value] else []) + Literals(queue[1..] + ChildNodes(queue[0]))
  {
  }

  predicate SameStructure(a: Node, b: Node) {
    Normalised(a) == Normalised(b)
  }

  predicate SameForest(a: seq<Node>, b: seq<Node>) {
    |a| == |b| && forall k :: 0 <= k < |a| ==> SameStructure(a[k], b[k])
  }

  lemma SameStructureInside(a: Node, b: Node)
    requires SameStructure(a, b)
    ensures a.Constant? == b.Constant? && a.Name? == b.Name?
    ensures a.Branch? ==> a.kind == b.kind && SameForest(a.children, b.children)
    ensures a.Name? ==> a == b
  {
    if a.Branch? {
      forall k | 0 <= k < |a.children| ensures SameStructure(a.children[k], b.children[k]) {
        assert Normalised(a).children[k] == Normalised(b).children[k];
      }
    }
  }

  function Rest(queue: seq<Node>): seq<Node>
    requires queue != []
  {
    queue[1..] + ChildNodes(queue[0])
  }

  lemma SameForestStep(a: seq<Node>, b: seq<Node>)
    requires SameForest(a, b) && a != []
    ensures SameForest(Rest(a), Rest(b)) && |ChildNodes(a[0])| == |ChildNodes(b[0])|
    ensures a[0].Constant? == b[0].Constant?
    ensures Rest(a) == Rest(b) && (a[0].Constant? ==> a[0] == b[0]) ==> a == b
  {
    SameStructureInside(a[0], b[0]);
    var ra, rb, m := Rest(a), Rest(b), |a| - 1;
    forall k | 0 <= k < |ra| ensures SameStructure(ra[k], rb[k]) {
      if k < m {
        assert ra[k] == a[k + 1] && rb[k] == b[k + 1];
      } else {
        assert ra[k] == ChildNodes(a[0])[k - m] && rb[k] == ChildNodes(b[0])[k - m];
      }
    }
    assert ra[..m] == a[1..] && rb[..m] == b[1..];
    assert ra[m..] == ChildNodes(a[0]) && rb[m..] == ChildNodes(b[0]);
    assert a == [a[0]] + a[1..] && b == [b[0]] + b[1..];
  }

  lemma LiteralsStep(queue: seq<Node>)
    requires queue != []
    ensures queue[0].Constant? ==>
              Literals(queue) != [] && Literals(queue)[0] == queue[0].value && Literals(queue)[1..] == Literals(Rest(queue))
    ensures !queue[0].Constant? ==> Literals(queue) == Literals(Rest(queue))
  {
    if !queue[0].Constant? { assert [] + Literals(Rest(queue)) == Literals(Rest(queue)); }
  }

  /** Structure and breadth-first literals together determine a program. */
  lemma {:induction false} SignatureDetermines(a: seq<Node>, b: seq<Node>)
    requires SameForest(a, b) && Literals(a) == Literals(b)
    ensures a == b
    decreases ForestSize(a)
  {
    hide Literals;
    hide SameForest;
    if a != [] {
      NonEmptyAlike(a, b);
      QueueShrinks(a);
      SameForestStep(a, b);
      LiteralsStep(a);
      LiteralsStep(b);
      SignatureDetermines(Rest(a), Rest(b));
    } else {
      NonEmptyAlike(a, b);
    }
  }

  lemma NonEmptyAlike(a: seq<Node>, b: seq<Node>)
    requires SameForest(a, b)
    ensures |a| == |b|
  {
  }

  // ---------------------------------------------------------------- tuning passes the checks

  lemma TunedKeepsClass(mode: Mode, v: Literal)
    requires Matches(mode, v)
    ensures Class(Tuned(mode, v)) == Class(v)
    ensures Tuned(mode, v) == v <==> mode.Number? && v.Float? && mode.sum(v.number) == v.number
  {
    if mode.Infinity? {
      assert LowerCase("Infinity") != "inf" by { LowerKeepsLength("Infinity"); }
    }
  }

  lemma {:induction false} LowerKeepsLength(s: string)
    ensures |LowerCase(s)| == |s|
  {
    if s != [] { LowerKeepsLength(s[..|s| - 1]); }
  }

  lemma {:induction false} ReplaceKeepsStructure(n: Node, path: seq<nat>, leaf: Node)
    requires At(n, path).Some? && SameStructure(At(n, path).value, leaf)
    ensures SameStructure(Replace(n, path, leaf), n)
    ensures Replace(n, path, leaf) == n <==> At(n, path).value == leaf
    decreases |path|
  {
    if path != [] {
      var child := n.children[path[0]];
      ReplaceKeepsStructure(child, path[1..], leaf);
      var m := Replace(n, path, leaf);
      assert m.children[path[0]] == Replace(child, path[1..], leaf);
      assert n.children[path[0] := child] == n.children;
      assert Normalised(m).children == Normalised(n).children;
    }
  }

  /** The two checks: the algorithm keeps its structure, and some literal differs. */
  predicate AcceptsMutation(parent: Node, code: Node) {
    SameStructure(code, parent) && Literals([code]) != Literals([parent])
  }

  // ---------------------------------------------------------------- printed and read again

  predicate Negative(v: Literal) {
    match v
    case Int(i) => i < 0
    case Float(x) => x < 0.0
    case Imaginary(x) => x < 0.0
    case _ => false
  }

  /** A parser produces no negative literal. */
  predicate Parsed(n: Node) {
    match n
    case Constant(v) => !Negative(v)
    case Name(_) => true
    case Branch(_, children) => forall k :: 0 <= k < |children| ==> Parsed(children[k])
  }

  /**
   * `again` may be what the printed form of `n` is read as. Every negative literal adds at
   * least a unary minus to the tree; where in the tree depends on operator precedence.
   */
  predicate ReadsBack(n: Node, again: Node) {
    if Parsed(n) then again == n else Size(again) > Size(n)
  }

  const UNARY_MINUS: Id := 0

  function Magnitude(v: Literal): Literal {
    match v
    case Int(i) => Int(if i < 0 then -i else i)
    case Float(x) => Float(if x < 0.0 then -x else x)
    case Imaginary(x) => Imaginary(if x < 0.0 then -x else x)
    case _ => v
  }

  /** The reading where no operator binds tighter than the minus sign. */
  function InPlace(n: Node): Node {
    match n
    case Constant(v) => if Negative(v) then Branch(Plain(UNARY_MINUS), [Constant(Magnitude(v))]) else n
    case Name(_) => n
    case Branch(kind, children) =>
      Branch(kind, seq(|children|, k requires 0 <= k < |children| => InPlace(children[k])))
  }

  /** Every tree has a reading. */
  lemma {:induction false} SomeReading(n: Node)
    ensures ReadsBack(n, InPlace(n)) && Parsed(InPlace(n)) && Size(InPlace(n)) >= Size(n)
    decreases n, if n.Branch? then |n.children| + 1 else 0
  {
    match n {
      case Constant(v) =>
        if Negative(v) {
          var m := InPlace(n);
          assert ChildrenSize(m, 1) == ChildrenSize(m, 0) + Size(m.children[0]);
        }
      case Name(_) =>
      case Branch(kind, children) =>
        var m := InPlace(n);
        SomeReadings(n, |children|);
        if Parsed(n) { assert m.children == children; }
    }
  }

  lemma {:induction false} SomeReadings(n: Node, k: nat)
    requires n.Branch? && k <= |n.children|
    ensures forall i :: 0 <= i < k ==> ReadsBack(n.children[i], InPlace(n.children[i])) && Parsed(InPlace(n.children[i]))
    ensures ChildrenSize(InPlace(n), k) >= ChildrenSize(n, k)
    ensures (exists i :: 0 <= i < k && !Parsed(n.children[i])) ==> ChildrenSize(InPlace(n), k) > ChildrenSize(n, k)
    decreases n, k
  {
    if k > 0 {
      SomeReadings(n, k - 1);
      SomeReading(n.children[k - 1]);
    }
  }

  lemma {:induction false} SameStructureSameSize(a: Node, b: Node)
    requires SameStructure(a, b)
    ensures Size(a) == Size(b)
    decreases a, if a.Branch? then |a.children| + 1 else 0
  {
    SameStructureInside(a, b);
    if a.Branch? { SameChildrenSize(a, b, |a.children|); }
  }

  lemma {:induction false} SameChildrenSize(a: Node, b: Node, k: nat)
    requires a.Branch? && b.Branch? && SameForest(a.children, b.children) && k <= |a.children|
    ensures ChildrenSize(a, k) == ChildrenSize(b, k)
    decreases a, k
  {
    if k > 0 {
      SameChildrenSize(a, b, k - 1);
      SameStructureSameSize(a.children[k - 1], b.children[k - 1]);
    }
  }

  lemma {:induction false} ReplaceKeepsParsed(n: Node, path: seq<nat>, v: Literal)
    requires Parsed(n) && At(n, path).Some?
    ensures Parsed(Replace(n, path, Constant(v))) <==> !Negative(v)
    decreases |path|
  {
    if path != [] {
      var m := Replace(n, path, Constant(v));
      ReplaceKeepsParsed(n.children[path[0]], path[1..], v);
      assert m.children[path[0]] == Replace(n.children[path[0]], path[1..], Constant(v));
    }
  }

  lemma {:induction false} FoundParsed(n: Node, path: seq<nat>)
    requires Parsed(n) && At(n, path).Some?
    ensures Parsed(At(n, path).value)
    decreases |path|
  {
    if path != [] { FoundParsed(n.children[path[0]], path[1..]); }
  }

  /**
   * Neither left as it was, as a delta of zero or rounding may do to a float, nor made
   * negative.
   */
  predicate StaysAcceptable(mode: Mode, v: Literal) {
    mode.Number? && v.Float? ==> mode.sum(v.number) != v.number && 0.0 <= mode.sum(v.number)
  }

  lemma TunedSign(mode: Mode, v: Literal)
    requires Matches(mode, v) && !Negative(v)
    ensures StaysAcceptable(mode, v) <==> !Negative(Tuned(mode, v)) && Tuned(mode, v) != v
  {
    TunedKeepsClass(mode, v);
  }

  /**
   * However the printed result is read again, a reported change passes both checks exactly
   * if the tuned literal is not a float that the sum left unchanged or made negative. An
   * accepted program is the tuned tree itself, and parsed again.
   */
  lemma TuningAccepted(mode: Mode, n: Node, path: seq<nat>, again: Node)
    requires Parsed(n) && Tunable(mode, n, path)
    requires ReadsBack(Replace(n, path, Constant(Tuned(mode, At(n, path).value.value))), again)
    ensures AcceptsMutation(n, again) <==> StaysAcceptable(mode, At(n, path).value.value)
    ensures AcceptsMutation(n, again) ==>
              Parsed(again) && again == Replace(n, path, Constant(Tuned(mode, At(n, path).value.value)))
  {
    var v := At(n, path).value.value;
    var m := Replace(n, path, Constant(Tuned(mode, v)));
    FoundParsed(n, path);
    TunedSign(mode, v);
    TunedKeepsClass(mode, v);
    ReplaceKeepsParsed(n, path, Tuned(mode, v));
    ReplaceKeepsStructure(n, path, Constant(Tuned(mode, v)));
    SameStructureSameSize(m, n);
    if SameStructure(again, n) { SameStructureSameSize(again, n); }
    if Parsed(m) {
      assert SameForest([m], [n]);
      if Literals([m]) == Literals([n]) { SignatureDetermines([m], [n]); }
    }
  }

  /** The sum without rounding. */
  function Exactly(delta: int): real -> real {
    (x: real) => x + delta as real * 0.01
  }

  /** The failing family has members: 0.01 tuned by -5 is read as a minus sign and 0.04. */
  lemma NegativeIsRejected(again: Node)
    requires ReadsBack(Visit(Number(-5, Exactly(-5)), Constant(Float(0.01)), false).0, again)
    ensures Visit(Number(-5, Exactly(-5)), Constant(Float(0.01)), false) == (Constant(Float(-0.04)), true)
    ensures !AcceptsMutation(Constant(Float(0.01)), again)
  {
    TuningAccepted(Number(-5, Exactly(-5)), Constant(Float(0.01)), [], again);
  }

  /** And so is a literal, such as 1e18, that is too large for the machine to add a hundredth to. */
  lemma AbsorbedIsRejected(delta: int, sum: real -> real, x: real, again: Node)
    requires 0.0 <= x && sum(x) == x
    requires ReadsBack(Visit(Number(delta, sum), Constant(Float(x)), false).0, again)
    ensures Visit(Number(delta, sum), Constant(Float(x)), false) == (Constant(Float(x)), true)
    ensures !AcceptsMutation(Constant(Float(x)), again)
  {
    TuningAccepted(Number(delta, sum), Constant(Float(x)), [], again);
  }

  /** What tuning a program gives: the literal it chose, and when the checks accept it. */
  ghost predicate TunedAt(mode: Mode, tree: Node, m: Node, path: seq<nat>) {
    && Tunable(mode, tree, path)
    && m == Replace(tree, path, Constant(Tuned(mode, At(tree, path).value.value)))
    && forall again :: ReadsBack(m, again) ==>
         (AcceptsMutation(tree, again) <==> StaysAcceptable(mode, At(tree, path).value.value))
  }

  /** What the visitor reports as changed is the first tunable literal, tuned. */
  lemma VisitTunes(mode: Mode, n: Node) returns (path: seq<nat>)
    requires Parsed(n) && Visit(mode, n, false).1
    ensures TunedAt(mode, n, Visit(mode, n, false).0, path)
    ensures forall q :: Tunable(mode, n, q) ==> NotAfter(path, q)
  {
    path := TunesFirst(mode, n);
    forall again | ReadsBack(Visit(mode, n, false).0, again)
      ensures AcceptsMutation(n, again) <==> StaysAcceptable(mode, At(n, path).value.value)
    {
      TuningAccepted(mode, n, path, again);
    }
  }

  /** Adding something that is not negative, rounded, does not make a number smaller. */
  ghost predicate NeverFalls(sum: real -> real) {
    forall x :: 0.0 <= x ==> x <= sum(x)
  }

  /**
   * Numbers first, then an infinity; without either there is nothing to tune. With a delta of
   * at least one, as its caller passes, the result is a parsed program again, and it is
   * accepted exactly if it differs from the tree at all, which it always does without rounding.
   */
  method TuneFirstNumber(tree: Node, delta: int, sum: real -> real) returns (tuned: Option<Node>)
    requires Parsed(tree)
    ensures tuned.None? <==>
              (forall q :: !Tunable(Number(delta, sum), tree, q)) && (forall q :: !Tunable(Infinity, tree, q))
    ensures tuned.Some? ==>
              var number := Number(delta, sum);
              var mode := if exists q :: Tunable(number, tree, q) then number else Infinity;
              exists path :: TunedAt(mode, tree, tuned.value, path) && forall q :: Tunable(mode, tree, q) ==> NotAfter(path, q)
    ensures tuned.Some? && NeverFalls(sum) ==>
              Parsed(tuned.value) && (AcceptsMutation(tree, tuned.value) <==> tuned.value != tree)
    ensures tuned.Some? && delta >= 1 && sum == Exactly(delta) ==> tuned.value != tree && NeverFalls(sum)
  {
    var numbers := new Transformer(Number(delta, sum));
    var m := numbers.Transform(tree);
    ghost var first := TunesFirst(Number(delta, sum), tree);
    if numbers.changed {
      ghost var path := VisitTunes(Number(delta, sum), tree);
      ChangeIsAccepted(Number(delta, sum), tree, m, path);
      return Some(m);
    }
    var infinities := new Transformer(Infinity);
    m := infinities.Transform(m);
    first := TunesFirst(Infinity, tree);
    if !infinities.changed { return None; }
    ghost var path := VisitTunes(Infinity, tree);
    ChangeIsAccepted(Infinity, tree, m, path);
    tuned := Some(m);
  }

  lemma ChangeIsAccepted(mode: Mode, tree: Node, m: Node, path: seq<nat>)
    requires Parsed(tree) && TunedAt(mode, tree, m, path)
    ensures (mode.Number? ==> NeverFalls(mode.sum)) ==> Parsed(m) && (AcceptsMutation(tree, m) <==> m != tree)
    ensures mode.Infinity? || (mode.delta >= 1 && mode.sum == Exactly(mode.delta)) ==> m != tree
    ensures mode.Number? && mode.delta >= 1 && mode.sum == Exactly(mode.delta) ==> NeverFalls(mode.sum)
  {
    var v := At(tree, path).value.value;
    FoundParsed(tree, path);
    TunedKeepsClass(mode, v);
    ReplaceKeepsStructure(tree, path, Constant(Tuned(mode, v)));
    if mode.Number? ==> NeverFalls(mode.sum) {
      TunedSign(mode, v);
      ReplaceKeepsParsed(tree, path, Tuned(mode, v));
      assert ReadsBack(m, m);
    }
  }
}
