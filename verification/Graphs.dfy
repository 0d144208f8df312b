/** Computation graphs in topological order with one assignment per name, and what they compute. */
module Graphs {

  datatype Node = Node(op: string, attributes: int, inputs: seq<string>, outputs: seq<string>)

  /** What an operator with its attributes makes of its arguments, output by output. */
  type Semantics<!V> = (string, int, seq<V>, nat) -> V

  function IndexIn(xs: seq<string>, x: string): (i: nat)
    requires x in xs
    ensures i < |xs| && xs[i] == x
  {
    if xs[0] == x then 0 else 1 + IndexIn(xs[1..], x)
  }

  predicate Distinct(xs: seq<string>) {
    forall i, j | 0 <= i < j < |xs| :: xs[i] != xs[j]
  }

  function Names(xs: seq<string>): set<string> {
    set x | x in xs
  }

  /** The names that have a value after the nodes, if those in `given` have one before. */
  function Defined(nodes: seq<Node>, given: set<string>): set<string> {
    if nodes == [] then given
    else Defined(nodes[..|nodes| - 1], given) + Names(nodes[|nodes| - 1].outputs)
  }

  /** Every node reads defined names and assigns new ones. */
  predicate WellFormed(nodes: seq<Node>, given: set<string>) {
    nodes == [] ||
    var init, n := nodes[..|nodes| - 1], nodes[|nodes| - 1];
    && WellFormed(init, given)
    && (forall x | x in n.inputs :: x in Defined(init, given))
    && Distinct(n.outputs)
    && (forall x | x in n.outputs :: x !in Defined(init, given))
  }

  function Args<V>(names: seq<string>, env: map<string, V>): seq<V>
    requires forall x | x in names :: x in env
  {
    seq(|names|, i requires 0 <= i < |names| => env[names[i]])
  }

  function Run<V>(n: Node, env: map<string, V>, sem: Semantics<V>): (r: map<string, V>)
    requires forall x | x in n.inputs :: x in env
    ensures r.Keys == env.Keys + Names(n.outputs)
  {
    var args := Args(n.inputs, env);
    env + map x | x in n.outputs :: sem(n.op, n.attributes, args, IndexIn(n.outputs, x))
  }

  /** The values of all names. */
  function Eval<V>(nodes: seq<Node>, env: map<string, V>, sem: Semantics<V>): (r: map<string, V>)
    requires WellFormed(nodes, env.Keys)
    ensures r.Keys == Defined(nodes, env.Keys)
  {
    if nodes == [] then env else Run(nodes[|nodes| - 1], Eval(nodes[..|nodes| - 1], env, sem), sem)
  }

  /** `e` satisfies the equation of every node in `nodes[..n]` and extends `env`. */
  ghost predicate Solves<V(!new)>(nodes: seq<Node>, n: nat, e: map<string, V>, env: map<string, V>, sem: Semantics<V>)
    requires n <= |nodes|
  {
    && (forall x | x in env :: x in e && e[x] == env[x])
    && (forall i | 0 <= i < n :: NodeHolds(nodes[i], e, sem))
  }

  ghost predicate NodeHolds<V(!new)>(n: Node, e: map<string, V>, sem: Semantics<V>) {
    && (forall x | x in n.inputs :: x in e)
    && (forall x | x in n.outputs ::
          x in e && e[x] == sem(n.op, n.attributes, Args(n.inputs, e), IndexIn(n.outputs, x)))
  }

  lemma {:induction false} ArgsAgree<V(!new)>(names: seq<string>, d: map<string, V>, e: map<string, V>)
    requires forall x | x in names :: x in d && x in e && d[x] == e[x]
    ensures Args(names, d) == Args(names, e)
  {
  }

  /** Evaluation solves the equations. */
  lemma {:induction false} EvalSolves<V(!new)>(nodes: seq<Node>, env: map<string, V>, sem: Semantics<V>)
    requires WellFormed(nodes, env.Keys)
    ensures Solves(nodes, |nodes|, Eval(nodes, env, sem), env, sem)
  {
    if nodes != [] {
      var init := nodes[..|nodes| - 1];
      EvalSolves(init, env, sem);
      SolvesStep(nodes, Eval(init, env, sem), env, sem);
    }
  }

  lemma {:induction false} SolvesStep<V(!new)>(nodes: seq<Node>, d: map<string, V>, env: map<string, V>,
                                               sem: Semantics<V>)
    requires nodes != []
    requires Solves(nodes[..|nodes| - 1], |nodes| - 1, d, env, sem)
    requires var n := nodes[|nodes| - 1];
             (forall x | x in n.inputs :: x in d) && (forall x | x in n.outputs :: x !in d)
    ensures Solves(nodes, |nodes|, Run(nodes[|nodes| - 1], d, sem), env, sem)
  {
    var init, n := nodes[..|nodes| - 1], nodes[|nodes| - 1];
    var e := Run(n, d, sem);
    assert forall x | x in d :: x in e && e[x] == d[x];
    NodeStillHolds(n, d, e, sem);
    forall i | 0 <= i < |nodes|
      ensures NodeHolds(nodes[i], e, sem)
    {
      if i < |init| {
        assert NodeHolds(init[i], d, sem);
        NodeKeepsHolding(init[i], d, e, sem);
      }
    }
  }

  lemma {:induction false} NodeStillHolds<V(!new)>(n: Node, d: map<string, V>, e: map<string, V>, sem: Semantics<V>)
    requires forall x | x in n.inputs :: x in d
    requires e == Run(n, d, sem) && forall x | x in d :: e[x] == d[x]
    ensures NodeHolds(n, e, sem)
  {
    ArgsAgree(n.inputs, d, e);
  }

  lemma {:induction false} NodeKeepsHolding<V(!new)>(n: Node, d: map<string, V>, e: map<string, V>, sem: Semantics<V>)
    requires NodeHolds(n, d, sem) && forall x | x in d :: x in e && e[x] == d[x]
    ensures NodeHolds(n, e, sem)
  {
    ArgsAgree(n.inputs, d, e);
  }

  /** The equations have no other solution. */
  lemma {:induction false} SolutionIsEval<V(!new)>(nodes: seq<Node>, e: map<string, V>, env: map<string, V>,
                                                   sem: Semantics<V>)
    requires WellFormed(nodes, env.Keys) && Solves(nodes, |nodes|, e, env, sem)
    ensures forall x | x in Eval(nodes, env, sem) :: x in e && e[x] == Eval(nodes, env, sem)[x]
  {
    if nodes != [] {
      var init, n := nodes[..|nodes| - 1], nodes[|nodes| - 1];
      forall i | 0 <= i < |init|
        ensures NodeHolds(init[i], e, sem)
      {
        assert NodeHolds(nodes[i], e, sem);
      }
      SolutionIsEval(init, e, env, sem);
      ArgsAgree(n.inputs, Eval(init, env, sem), e);
      assert NodeHolds(nodes[|nodes| - 1], e, sem);
    }
  }

  // ---- positions ----

  lemma {:induction false} DefinedGrows(nodes: seq<Node>, given: set<string>, i: nat)
    requires i <= |nodes|
    ensures Defined(nodes[..i], given) <= Defined(nodes, given)
    ensures given <= Defined(nodes, given)
  {
    if i < |nodes| {
      var init := nodes[..|nodes| - 1];
      assert init[..i] == nodes[..i];
      DefinedGrows(init, given, i);
    } else {
      assert nodes[..i] == nodes;
      if nodes != [] {
        DefinedGrows(nodes[..|nodes| - 1], given, |nodes| - 1);
      }
    }
  }

  /** What well-formedness says of the node at a position. */
  lemma {:induction false} NodeAt(nodes: seq<Node>, given: set<string>, i: nat)
    requires WellFormed(nodes, given) && i < |nodes|
    ensures WellFormed(nodes[..i], given)
    ensures forall x | x in nodes[i].inputs :: x in Defined(nodes[..i], given)
    ensures Distinct(nodes[i].outputs)
    ensures forall x | x in nodes[i].outputs :: x !in Defined(nodes[..i], given)
    ensures forall x | x in nodes[i].outputs :: x in Defined(nodes[..i + 1], given)
  {
    assert nodes[..i + 1][..i] == nodes[..i];
    if i < |nodes| - 1 {
      var init := nodes[..|nodes| - 1];
      assert init[..i] == nodes[..i];
      NodeAt(init, given, i);
    }
  }

  /** A name is read only after it was assigned. */
  lemma {:induction false} ReadAfterAssigned(nodes: seq<Node>, given: set<string>, i: nat, j: nat, x: string)
    requires WellFormed(nodes, given) && i < |nodes| && j < |nodes|
    requires x in nodes[i].outputs && x in nodes[j].inputs
    ensures i < j
  {
    NodeAt(nodes, given, i);
    NodeAt(nodes, given, j);
    if j <= i {
      assert nodes[..i][..j] == nodes[..j];
      DefinedGrows(nodes[..i], given, j);
    }
  }

  /** A defined name is given or assigned by a node. */
  lemma {:induction false} Producer(nodes: seq<Node>, given: set<string>, x: string)
    requires x in Defined(nodes, given)
    ensures x in given || exists p :: 0 <= p < |nodes| && x in nodes[p].outputs
  {
    if nodes != [] {
      var n := |nodes| - 1;
      if x in nodes[n].outputs {
      } else {
        Producer(nodes[..n], given, x);
        if x !in given {
          var p :| 0 <= p < n && x in nodes[..n][p].outputs;
          assert x in nodes[p].outputs;
        }
      }
    }
  }
}
