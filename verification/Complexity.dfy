/** Cyclomatic complexity per function and per module (apps/ci-worker/src/ast-analyzer.ts). */
module Complexity {
  import opened Encoding

  datatype Operator = And | Or | Coalesce | OtherOperator

  datatype Kind =
    | IfStatement | ConditionalExpression | ForStatement | ForInStatement | ForOfStatement | WhileStatement
    | DoWhileStatement | CatchClause | SwitchCase(hasTest: bool) | LogicalExpression(operator: Operator)
    | FunctionDeclaration | FunctionExpression | ArrowFunctionExpression | ObjectMethod | ClassMethod
    | ClassPrivateMethod | OtherNode

  /** A syntax tree, children in the order a traversal visits them. */
  datatype Tree = Node(kind: Kind, children: seq<Tree>)

  function DecisionCountFor(kind: Kind): nat
  {
    match kind
    case SwitchCase(hasTest) => if hasTest then 1 else 0
    case LogicalExpression(operator) => if operator != OtherOperator then 1 else 0
    case IfStatement | ConditionalExpression | ForStatement | ForInStatement | ForOfStatement | WhileStatement
       | DoWhileStatement | CatchClause => 1
    case _ => 0
  }

  predicate IsFunction(kind: Kind)
  {
    match kind
    case FunctionDeclaration | FunctionExpression | ArrowFunctionExpression | ObjectMethod | ClassMethod
       | ClassPrivateMethod => true
    case _ => false
  }

  /** What adds a path: branches, loops, catches, cases with a test, and the three short-circuit operators. */
  lemma WhatCounts(kind: Kind)
    ensures DecisionCountFor(kind) <= 1
    ensures DecisionCountFor(kind) == 1 <==> kind in {
      IfStatement, ConditionalExpression, ForStatement, ForInStatement, ForOfStatement, WhileStatement, DoWhileStatement,
      CatchClause, SwitchCase(true), LogicalExpression(And), LogicalExpression(Or), LogicalExpression(Coalesce)}
    ensures IsFunction(kind) <==> kind in {
      FunctionDeclaration, FunctionExpression, ArrowFunctionExpression, ObjectMethod, ClassMethod, ClassPrivateMethod}
  {
  }

  // ---------- what the numbers should be, on the tree alone ----------

  /** The decisions of a tree. */
  function Total(t: Tree): nat
    decreases t, 1
  {
    DecisionCountFor(t.kind) + TotalAll(t.children)
  }

  function TotalAll(ts: seq<Tree>): nat
    decreases ts, 0
  {
    if ts == [] then 0 else Total(ts[0]) + TotalAll(ts[1..])
  }

  /** The decisions of a tree that stand in none of its functions. */
  function Outside(t: Tree): nat
    decreases t, 1
  {
    if IsFunction(t.kind) then 0 else DecisionCountFor(t.kind) + OutsideAll(t.children)
  }

  function OutsideAll(ts: seq<Tree>): nat
    decreases ts, 0
  {
    if ts == [] then 0 else Outside(ts[0]) + OutsideAll(ts[1..])
  }

  /** For each function of a tree, outer before inner: the decisions in it but in no function inside it. */
  function Own(t: Tree): seq<nat>
    decreases t, 1
  {
    (if IsFunction(t.kind) then [OutsideAll(t.children)] else []) + OwnAll(t.children)
  }

  function OwnAll(ts: seq<Tree>): seq<nat>
    decreases ts, 0
  {
    if ts == [] then [] else Own(ts[0]) + OwnAll(ts[1..])
  }

  function Sum(ns: seq<nat>): nat { if ns == [] then 0 else ns[0] + Sum(ns[1..]) }

  lemma {:induction false} SumConcat(a: seq<nat>, b: seq<nat>)
    ensures Sum(a + b) == Sum(a) + Sum(b)
  {
    if a == [] {
      assert a + b == b;
    } else {
      SumConcat(a[1..], b);
      assert (a + b)[1..] == a[1..] + b;
    }
  }

  /** Conservation: every decision is counted once, outside all functions or in its nearest one. */
  lemma {:induction false} DecisionsAreConserved(t: Tree)
    ensures Total(t) == Outside(t) + Sum(Own(t))
    decreases t, 1
  {
    DecisionsAreConservedAll(t.children);
    if IsFunction(t.kind) {
      SumConcat([OutsideAll(t.children)], OwnAll(t.children));
    } else {
      assert Own(t) == OwnAll(t.children);
    }
  }

  lemma {:induction false} DecisionsAreConservedAll(ts: seq<Tree>)
    ensures TotalAll(ts) == OutsideAll(ts) + Sum(OwnAll(ts))
    decreases ts, 0
  {
    if ts != [] {
      DecisionsAreConserved(ts[0]);
      DecisionsAreConservedAll(ts[1..]);
      SumConcat(Own(ts[0]), OwnAll(ts[1..]));
    }
  }

  // ---------- nodes, numbered in the order they are entered ----------

  function Size(t: Tree): (n: nat)
    ensures n >= 1
    decreases t, 1
  {
    1 + SizeAll(t.children)
  }

  function SizeAll(ts: seq<Tree>): nat
    decreases ts, 0
  {
    if ts == [] then 0 else Size(ts[0]) + SizeAll(ts[1..])
  }

  /** The numbers of a tree's functions, in the order they are entered. */
  function Functions(t: Tree, id: nat): (ids: seq<nat>)
    ensures |ids| == |Own(t)|
    ensures forall k :: 0 <= k < |ids| ==> id <= ids[k] < id + Size(t)
    decreases t, 1
  {
    (if IsFunction(t.kind) then [id] else []) + FunctionsAll(t.children, id + 1)
  }

  function FunctionsAll(ts: seq<Tree>, id: nat): (ids: seq<nat>)
    ensures |ids| == |OwnAll(ts)|
    ensures forall k :: 0 <= k < |ids| ==> id <= ids[k] < id + SizeAll(ts)
    decreases ts, 0
  {
    if ts == [] then [] else Functions(ts[0], id) + FunctionsAll(ts[1..], id + Size(ts[0]))
  }

  /** An ancestor: its number and what it is. */
  datatype Ancestor = Ancestor(id: nat, kind: Kind)

  /** `getFunctionParent`: the nearest ancestor that is a function. */
  function FunctionParent(path: seq<Ancestor>): (parent: Option<nat>)
  {
    if path == [] then None
    else if IsFunction(path[|path| - 1].kind) then Some(path[|path| - 1].id)
    else FunctionParent(path[..|path| - 1])
  }

  function Charged(m: map<nat, nat>, id: nat): nat { if id in m then m[id] else 0 }

  // ---------- the first walk, on values ----------

  /** The module's count, one entry a function in the order of entering, and what each function is charged. */
  datatype State = State(decisions: nat, functions: seq<nat>, charges: map<nat, nat>)

  function Charge(m: map<nat, nat>, parent: Option<nat>, n: nat): map<nat, nat>
  {
    if parent == None then m else m[parent.value := Charged(m, parent.value) + n]
  }

  function Enter(s: State, kind: Kind, id: nat, path: seq<Ancestor>): State
  {
    var seen := if IsFunction(kind)
                then State(s.decisions, s.functions + [0], s.charges[id := Charged(s.charges, id)])
                else s;
    var n := DecisionCountFor(kind);
    if n == 0 then seen
    else State(seen.decisions + n, seen.functions, Charge(seen.charges, FunctionParent(path), n))
  }

  function Walk(s: State, t: Tree, id: nat, path: seq<Ancestor>): State
    decreases t, 1
  {
    WalkAll(Enter(s, t.kind, id, path), t.children, id + 1, path + [Ancestor(id, t.kind)])
  }

  function WalkAll(s: State, ts: seq<Tree>, id: nat, path: seq<Ancestor>): State
    decreases ts, 0
  {
    if ts == [] then s else WalkAll(Walk(s, ts[0], id, path), ts[1..], id + Size(ts[0]), path)
  }

  predicate Below(path: seq<Ancestor>, id: nat)
  {
    forall i :: 0 <= i < |path| ==> path[i].id < id
  }

  /** Nodes from `id` on have not been charged. */
  ghost predicate Fresh(s: State, id: nat)
  {
    forall x: nat :: x >= id ==> Charged(s.charges, x) == 0
  }

  function Zeros(n: nat): seq<nat> { seq(n, (i: nat) => 0) }

  predicate Credited(m: map<nat, nat>, ids: seq<nat>, own: seq<nat>)
  {
    |ids| == |own| && forall k :: 0 <= k < |ids| ==> Charged(m, ids[k]) == own[k]
  }

  /** What walking nodes `id` up to `end` adds. */
  ghost predicate Added(s: State, r: State, parent: Option<nat>, id: nat, end: nat, total: nat, outside: nat)
  {
    && r.decisions == s.decisions + total
    && (forall x: nat :: x < id || x >= end ==>
          Charged(r.charges, x) == Charged(s.charges, x) + if parent == Some(x) then outside else 0)
  }

  lemma {:induction false} ParentIsBelow(path: seq<Ancestor>, id: nat)
    requires Below(path, id)
    ensures FunctionParent(path).Some? ==> FunctionParent(path).value < id
  {
    if path != [] {
      ParentIsBelow(path[..|path| - 1], id);
    }
  }

  lemma ParentOfChild(path: seq<Ancestor>, id: nat, kind: Kind)
    ensures FunctionParent(path + [Ancestor(id, kind)]) == if IsFunction(kind) then Some(id) else FunctionParent(path)
  {
    assert (path + [Ancestor(id, kind)])[..|path|] == path;
  }

  lemma EnterAdds(s: State, kind: Kind, id: nat, path: seq<Ancestor>)
    requires Below(path, id) && Fresh(s, id)
    ensures var r := Enter(s, kind, id, path);
            && Added(s, r, FunctionParent(path), id, id, DecisionCountFor(kind), DecisionCountFor(kind))
            && Fresh(r, id)
            && r.functions == s.functions + Zeros(if IsFunction(kind) then 1 else 0)
  {
    ParentIsBelow(path, id);
  }

  /** What entering a node adds and what its children add make up what the node adds. */
  lemma NodeAddsUp(s: State, entered: State, r: State, t: Tree, id: nat, parent: Option<nat>)
    requires parent.Some? ==> parent.value < id
    requires Fresh(s, id) && Fresh(entered, id)
    requires Added(s, entered, parent, id, id, DecisionCountFor(t.kind), DecisionCountFor(t.kind))
    requires Added(entered, r, if IsFunction(t.kind) then Some(id) else parent, id + 1, id + Size(t),
                   TotalAll(t.children), OutsideAll(t.children))
    requires Credited(r.charges, FunctionsAll(t.children, id + 1), OwnAll(t.children))
    ensures Added(s, r, parent, id, id + Size(t), Total(t), Outside(t))
    ensures Credited(r.charges, Functions(t, id), Own(t))
  {
    if IsFunction(t.kind) {
      assert Charged(r.charges, id) == OutsideAll(t.children);
    }
  }

  /** The walk counts every decision, and charges each to the nearest function around it. */
  lemma {:induction false} WalkAdds(s: State, t: Tree, id: nat, path: seq<Ancestor>)
    requires Below(path, id) && Fresh(s, id)
    ensures var r := Walk(s, t, id, path);
            && Added(s, r, FunctionParent(path), id, id + Size(t), Total(t), Outside(t))
            && Credited(r.charges, Functions(t, id), Own(t))
            && Fresh(r, id + Size(t))
            && r.functions == s.functions + Zeros(|Own(t)|)
    decreases t, 1
  {
    var entered, below := Enter(s, t.kind, id, path), path + [Ancestor(id, t.kind)];
    EnterAdds(s, t.kind, id, path);
    ParentIsBelow(path, id);
    ParentOfChild(path, id, t.kind);
    WalkAllAdds(entered, t.children, id + 1, below);
    NodeAddsUp(s, entered, Walk(s, t, id, path), t, id, FunctionParent(path));
  }

  lemma {:induction false} WalkAllAdds(s: State, ts: seq<Tree>, id: nat, path: seq<Ancestor>)
    requires Below(path, id) && Fresh(s, id)
    ensures var r := WalkAll(s, ts, id, path);
            && Added(s, r, FunctionParent(path), id, id + SizeAll(ts), TotalAll(ts), OutsideAll(ts))
            && Credited(r.charges, FunctionsAll(ts, id), OwnAll(ts))
            && Fresh(r, id + SizeAll(ts))
            && r.functions == s.functions + Zeros(|OwnAll(ts)|)
    decreases ts, 0
  {
    if ts != [] {
      var first, next := Walk(s, ts[0], id, path), id + Size(ts[0]);
      ParentIsBelow(path, id);
      WalkAdds(s, ts[0], id, path);
      WalkAllAdds(first, ts[1..], next, path);
    }
  }

  // ---------- both walks, in place ----------

  /** One more than what each function was charged. */
  function Complexities(charges: map<nat, nat>, ids: seq<nat>): (r: seq<nat>)
    ensures |r| == |ids|
  {
    seq(|ids|, k requires 0 <= k < |ids| => Charged(charges, ids[k]) + 1)
  }

  /** The entries from `at` on are replaced by `now`. */
  function Overwrite(entries: seq<nat>, at: nat, now: seq<nat>): seq<nat>
    requires at + |now| <= |entries|
  {
    entries[..at] + now + entries[at + |now|..]
  }

  lemma OverwriteTwice(entries: seq<nat>, at: nat, now: seq<nat>, then_: seq<nat>)
    requires at + |now| + |then_| <= |entries|
    ensures Overwrite(Overwrite(entries, at, now), at + |now|, then_) == Overwrite(entries, at, now + then_)
  {
  }

  lemma ComplexitiesConcat(charges: map<nat, nat>, a: seq<nat>, b: seq<nat>)
    ensures Complexities(charges, a + b) == Complexities(charges, a) + Complexities(charges, b)
  {
  }

  class Analyzer {
    var moduleDecisions: nat
    // In the order of entering; the second walk fills the complexities in.
    var functions: seq<nat>
    var decisionsByFunction: map<nat, nat>
    var index: nat

    ghost function Value(): State
      reads this
    {
      State(moduleDecisions, functions, decisionsByFunction)
    }

    constructor ()
      ensures Value() == State(0, [], map[]) && index == 0
    {
      moduleDecisions, functions, decisionsByFunction, index := 0, [], map[], 0;
    }

    method GetFunctionParent(path: seq<Ancestor>) returns (parent: Option<nat>)
      ensures parent == FunctionParent(path)
    {
      var i := |path|;
      assert path[..i] == path;
      while i > 0
        invariant 0 <= i <= |path|
        invariant FunctionParent(path) == FunctionParent(path[..i])
      {
        assert path[..i][..i - 1] == path[..i - 1];
        if IsFunction(path[i - 1].kind) {
          return Some(path[i - 1].id);
        }
        i := i - 1;
      }
      return None;
    }

    method OnEnter(kind: Kind, id: nat, path: seq<Ancestor>)
      modifies this
      ensures Value() == Enter(old(Value()), kind, id, path) && index == old(index)
    {
      if IsFunction(kind) {
        decisionsByFunction := decisionsByFunction[id := Charged(decisionsByFunction, id)];
        functions := functions + [0];
      }
      var decisions := DecisionCountFor(kind);
      if decisions == 0 {
        return;
      }
      moduleDecisions := moduleDecisions + decisions;
      var enclosing := GetFunctionParent(path);
      if enclosing.Some? {
        var fn := enclosing.value;
        decisionsByFunction := decisionsByFunction[fn := Charged(decisionsByFunction, fn) + decisions];
      }
    }

    method Traverse(t: Tree, id: nat, path: seq<Ancestor>)
      modifies this
      ensures Value() == Walk(old(Value()), t, id, path) && index == old(index)
      decreases t, 1
    {
      OnEnter(t.kind, id, path);
      TraverseAll(t.children, id + 1, path + [Ancestor(id, t.kind)]);
    }

    method TraverseAll(ts: seq<Tree>, id: nat, path: seq<Ancestor>)
      modifies this
      ensures Value() == WalkAll(old(Value()), ts, id, path) && index == old(index)
      decreases ts, 0
    {
      if ts != [] {
        Traverse(ts[0], id, path);
        TraverseAll(ts[1..], id + Size(ts[0]), path);
      }
    }

    /** The second walk meets the functions in the order the first one recorded them. */
    method Fill(t: Tree, id: nat)
      requires index + |Own(t)| <= |functions|
      modifies this
      ensures decisionsByFunction == old(decisionsByFunction) && moduleDecisions == old(moduleDecisions)
      ensures index == old(index) + |Own(t)|
      ensures functions == Overwrite(old(functions), old(index), Complexities(decisionsByFunction, Functions(t, id)))
      decreases t, 1
    {
      if IsFunction(t.kind) {
        functions := functions[index := Charged(decisionsByFunction, id) + 1];
        index := index + 1;
        ghost var head := Complexities(decisionsByFunction, [id]);
        assert functions == Overwrite(old(functions), old(index), head);
        FillAll(t.children, id + 1);
        ghost var tail := FunctionsAll(t.children, id + 1);
        OverwriteTwice(old(functions), old(index), head, Complexities(decisionsByFunction, tail));
        ComplexitiesConcat(decisionsByFunction, [id], tail);
      } else {
        FillAll(t.children, id + 1);
        assert Functions(t, id) == FunctionsAll(t.children, id + 1);
      }
    }

    method FillAll(ts: seq<Tree>, id: nat)
      requires index + |OwnAll(ts)| <= |functions|
      modifies this
      ensures decisionsByFunction == old(decisionsByFunction) && moduleDecisions == old(moduleDecisions)
      ensures index == old(index) + |OwnAll(ts)|
      ensures functions == Overwrite(old(functions), old(index), Complexities(decisionsByFunction, FunctionsAll(ts, id)))
      decreases ts, 0
    {
      if ts != [] {
        Fill(ts[0], id);
        FillAll(ts[1..], id + Size(ts[0]));
        ghost var head, tail := Functions(ts[0], id), FunctionsAll(ts[1..], id + Size(ts[0]));
        OverwriteTwice(old(functions), old(index), Complexities(decisionsByFunction, head),
                       Complexities(decisionsByFunction, tail));
        ComplexitiesConcat(decisionsByFunction, head, tail);
      }
    }
  }

  /** The two numbers reported, against the tree: each function's own decisions and one, and the module's. */
  method AnalyzeAst(t: Tree) returns (cyclomatic: nat, perFunction: seq<nat>)
    ensures cyclomatic == Total(t) + 1
    ensures |perFunction| == |Own(t)| && forall k :: 0 <= k < |perFunction| ==> perFunction[k] == Own(t)[k] + 1
  {
    var analyzer := new Analyzer();
    analyzer.Traverse(t, 0, []);
    WalkAdds(State(0, [], map[]), t, 0, []);
    analyzer.Fill(t, 0);
    cyclomatic, perFunction := analyzer.moduleDecisions + 1, analyzer.functions;
  }

  function LessOne(ns: seq<nat>): int { if ns == [] then 0 else ns[0] - 1 + LessOne(ns[1..]) }

  lemma {:induction false} LessOneOfSums(reported: seq<nat>, own: seq<nat>)
    requires |reported| == |own| && forall k :: 0 <= k < |own| ==> reported[k] == own[k] + 1
    ensures LessOne(reported) == Sum(own)
  {
    if own != [] {
      LessOneOfSums(reported[1..], own[1..]);
    }
  }

  /** What is reported is conserved: module less one is the decisions outside plus each function less one. */
  lemma ReportIsConserved(t: Tree, cyclomatic: nat, perFunction: seq<nat>)
    requires cyclomatic == Total(t) + 1
    requires |perFunction| == |Own(t)| && forall k :: 0 <= k < |perFunction| ==> perFunction[k] == Own(t)[k] + 1
    ensures cyclomatic - 1 == Outside(t) + LessOne(perFunction)
    ensures forall k :: 0 <= k < |perFunction| ==> perFunction[k] <= cyclomatic
  {
    DecisionsAreConserved(t);
    LessOneOfSums(perFunction, Own(t));
    forall k | 0 <= k < |perFunction| ensures Own(t)[k] <= Sum(Own(t)) {
      PartOfSum(Own(t), k);
    }
  }

  lemma {:induction false} PartOfSum(ns: seq<nat>, k: nat)
    requires k < |ns|
    ensures ns[k] <= Sum(ns)
  {
    if k > 0 {
      PartOfSum(ns[1..], k - 1);
    }
  }
}
