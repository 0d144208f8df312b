/** Collapsing quantisation chains at graph inputs and pruning the dead edge nodes: what the rewrite
    does, and that every graph output keeps its meaning. */
module Prepare {
  import opened Text
  import opened Graphs

  const EDGE_OPS := {"QuantizeLinear", "DequantizeLinear", "Cast"}

  // ================= who reads a name =================

  /** `i`, once for every occurrence of the name. */
  function Uses(inputs: seq<string>, name: string, i: nat): seq<nat> {
    if inputs == [] then []
    else Uses(inputs[..|inputs| - 1], name, i) + (if inputs[|inputs| - 1] == name then [i] else [])
  }

  function Users(nodes: seq<Node>, name: string): seq<nat> {
    if nodes == [] then []
    else Users(nodes[..|nodes| - 1], name) + Uses(nodes[|nodes| - 1].inputs, name, |nodes| - 1)
  }

  lemma {:induction false} UsesRead(inputs: seq<string>, name: string, i: nat)
    ensures forall k | 0 <= k < |Uses(inputs, name, i)| :: Uses(inputs, name, i)[k] == i
    ensures Uses(inputs, name, i) != [] <==> name in inputs
  {
    if inputs != [] {
      UsesRead(inputs[..|inputs| - 1], name, i);
      assert inputs == inputs[..|inputs| - 1] + [inputs[|inputs| - 1]];
    }
  }

  /** The listed nodes read the name, and every node that reads it is listed. */
  lemma {:induction false} UsersRead(nodes: seq<Node>, name: string)
    ensures forall k | 0 <= k < |Users(nodes, name)| ::
              Users(nodes, name)[k] < |nodes| && name in nodes[Users(nodes, name)[k]].inputs
    ensures forall i | 0 <= i < |nodes| && name in nodes[i].inputs :: Users(nodes, name) != []
  {
    if nodes != [] {
      hide Uses;
      var n := |nodes| - 1;
      UsersRead(nodes[..n], name);
      UsesRead(nodes[n].inputs, name, n);
      assert Users(nodes, name) == Users(nodes[..n], name) + Uses(nodes[n].inputs, name, n);
      forall i | 0 <= i < |nodes| && name in nodes[i].inputs
        ensures Users(nodes, name) != []
      {
        assert i < n ==> nodes[..n][i] == nodes[i];
      }
    }
  }

  function Lookup(cons: map<string, seq<nat>>, name: string): seq<nat> {
    if name in cons then cons[name] else []
  }

  method AddUses(cons0: map<string, seq<nat>>, inputs: seq<string>, i: nat) returns (cons: map<string, seq<nat>>)
    ensures forall name :: Lookup(cons, name) == Lookup(cons0, name) + Uses(inputs, name, i)
  {
    hide Uses;
    cons := cons0;
    assert forall name :: Uses(inputs[..0], name, i) == [] by { NoUses(inputs, i); }
    for k := 0 to |inputs|
      invariant forall name :: Lookup(cons, name) == Lookup(cons0, name) + Uses(inputs[..k], name, i)
    {
      ghost var was := cons;
      cons := cons[inputs[k] := Lookup(cons, inputs[k]) + [i]];
      forall name
        ensures Lookup(cons, name) == Lookup(cons0, name) + Uses(inputs[..k + 1], name, i)
      {
        UsesStep(inputs, k, name, i);
        assert Lookup(cons, name) == if name == inputs[k] then Lookup(was, name) + [i] else Lookup(was, name);
        assert name == inputs[k] ==>
            (Lookup(cons0, name) + Uses(inputs[..k], name, i)) + [i]
              == Lookup(cons0, name) + (Uses(inputs[..k], name, i) + [i]);
      }
    }
    assert inputs[..|inputs|] == inputs;
  }

  lemma {:induction false} NoUses(inputs: seq<string>, i: nat)
    ensures forall name :: Uses(inputs[..0], name, i) == []
  {
  }

  lemma {:induction false} UsesStep(inputs: seq<string>, k: nat, name: string, i: nat)
    requires k < |inputs|
    ensures Uses(inputs[..k + 1], name, i) ==
            if name == inputs[k] then Uses(inputs[..k], name, i) + [i] else Uses(inputs[..k], name, i)
  {
    assert inputs[..k + 1][..k] == inputs[..k];
  }

  method Consumers(nodes: seq<Node>) returns (cons: map<string, seq<nat>>)
    ensures forall name :: Lookup(cons, name) == Users(nodes, name)
  {
    hide Lookup, Uses;
    cons := map[];
    assert forall name :: Lookup(cons, name) == [] by { NoConsumers(); }
    for i := 0 to |nodes|
      invariant forall name :: Lookup(cons, name) == Users(nodes[..i], name)
    {
      assert nodes[..i + 1][..i] == nodes[..i];
      cons := AddUses(cons, nodes[i].inputs, i);
    }
    assert nodes[..|nodes|] == nodes;
  }

  lemma {:induction false} NoConsumers()
    ensures forall name :: Lookup(map[], name) == []
  {
  }

  // ================= chains =================

  /** A node that continues a chain. */
  predicate IsLink(n: Node) {
    n.op in EDGE_OPS && |n.outputs| == 1
  }

  /** The only reader of `cur`, if it is a link behind position `after`. */
  function NextLink(nodes: seq<Node>, cur: string, after: nat): (j: Option<nat>)
    ensures j.Some? ==> after <= j.value < |nodes| && IsLink(nodes[j.value]) && Users(nodes, cur) == [j.value]
  {
    var users := Users(nodes, cur);
    if |users| == 1 && after <= users[0] < |nodes| && IsLink(nodes[users[0]]) then Some(users[0]) else None
  }

  /** The single-reader links from `cur` on. */
  function Chain(nodes: seq<Node>, cur: string, after: nat): (c: seq<nat>)
    ensures forall k | 0 <= k < |c| :: c[k] < |nodes| && IsLink(nodes[c[k]])
    decreases |nodes| - after
  {
    match NextLink(nodes, cur, after)
    case None => []
    case Some(j) => [j] + Chain(nodes, nodes[j].outputs[0], j + 1)
  }

  function End(nodes: seq<Node>, cur: string, chain: seq<nat>): string
    requires forall k | 0 <= k < |chain| :: chain[k] < |nodes| && IsLink(nodes[chain[k]])
  {
    if chain == [] then cur
    else
      assert IsLink(nodes[chain[|chain| - 1]]);
      nodes[chain[|chain| - 1]].outputs[0]
  }

  /** The tail of a non-empty chain that something still reads. */
  function InputChain(nodes: seq<Node>, gi: string): Option<string> {
    var chain := Chain(nodes, gi, 0);
    var tail := End(nodes, gi, chain);
    if chain == [] || Users(nodes, tail) == [] then None else Some(tail)
  }

  /** Where a walk from `gi` stands after `chain`: in a well-formed graph each link stands behind the
      previous one. */
  predicate Walked(nodes: seq<Node>, gi: string, chain: seq<nat>, cur: string, after: nat) {
    && (forall k | 0 <= k < |chain| :: chain[k] < |nodes| && IsLink(nodes[chain[k]]))
    && cur == End(nodes, gi, chain)
    && (if chain == [] then after == 0 else after == chain[|chain| - 1] + 1)
    && after <= |nodes|
    && chain + Chain(nodes, cur, after) == Chain(nodes, gi, 0)
  }

  lemma {:induction false} WalkStep(nodes: seq<Node>, gi: string, chain: seq<nat>, cur: string, after: nat, nxt: nat,
                                    given: set<string>)
    requires WellFormed(nodes, given) && Walked(nodes, gi, chain, cur, after)
    requires Users(nodes, cur) == [nxt]
    ensures nxt < |nodes| && after <= nxt
    ensures NextLink(nodes, cur, after) == if IsLink(nodes[nxt]) then Some(nxt) else None
    ensures IsLink(nodes[nxt]) ==> Walked(nodes, gi, chain + [nxt], nodes[nxt].outputs[0], nxt + 1)
  {
    hide Users, WellFormed;
    UsersRead(nodes, cur);
    assert Users(nodes, cur)[0] == nxt;
    if chain != [] {
      assert IsLink(nodes[chain[|chain| - 1]]);
      assert cur in nodes[after - 1].outputs;
      ReadAfterAssigned(nodes, given, after - 1, nxt, cur);
    }
    if IsLink(nodes[nxt]) {
      var rest := Chain(nodes, nodes[nxt].outputs[0], nxt + 1);
      assert Chain(nodes, cur, after) == [nxt] + rest;
      assert (chain + [nxt]) + rest == chain + ([nxt] + rest);
    }
  }

  method FindInputChain(nodes: seq<Node>, gi: string, ghost given: set<string>) returns (tail: Option<string>)
    requires WellFormed(nodes, given)
    ensures tail == InputChain(nodes, gi)
  {
    hide Users, WellFormed, IsLink, Walked, Lookup, InputChain, NextLink;
    var cons := Consumers(nodes);
    var chain: seq<nat>, cur := [], gi;
    ghost var after := 0;
    WalkBegins(nodes, gi);
    while true
      invariant Walked(nodes, gi, chain, cur, after) && after <= |nodes|
      decreases |nodes| - after
    {
      var users := Lookup(cons, cur);
      WalkEnds(nodes, gi, chain, cur, after);
      if |users| != 1 { break; }
      var nxt := users[0];
      WalkStep(nodes, gi, chain, cur, after, nxt, given);
      if !IsLink(nodes[nxt]) { break; }
      chain := chain + [nxt];
      cur := LinkOutput(nodes[nxt]);
      after := nxt + 1;
    }
    if chain == [] || Lookup(cons, cur) == [] { return None; }
    return Some(cur);
  }

  lemma {:induction false} WalkBegins(nodes: seq<Node>, gi: string)
    ensures Walked(nodes, gi, [], gi, 0)
  {
    hide Users, NextLink;
    assert [] + Chain(nodes, gi, 0) == Chain(nodes, gi, 0);
  }

  /** Where no link follows, the walk has found the chain. */
  lemma {:induction false} WalkEnds(nodes: seq<Node>, gi: string, chain: seq<nat>, cur: string, after: nat)
    requires Walked(nodes, gi, chain, cur, after)
    ensures |Users(nodes, cur)| != 1 ==> NextLink(nodes, cur, after).None?
    ensures NextLink(nodes, cur, after).None? ==>
              InputChain(nodes, gi) == if chain == [] || Users(nodes, cur) == [] then None else Some(cur)
  {
    hide Users;
    assert chain + [] == chain;
  }

  function LinkOutput(n: Node): string
    requires IsLink(n)
  {
    n.outputs[0]
  }

  ghost predicate IdentityOp<V(!new)>(n: Node, sem: Semantics<V>) {
    forall args: seq<V> | args != [] :: sem(n.op, n.attributes, args, 0) == args[0]
  }

  /** Every link from `cur` on takes the chain's tensor as its input 0 and hands it on unchanged. */
  ghost predicate LinksAreIdentity<V(!new)>(nodes: seq<Node>, cur: string, after: nat, sem: Semantics<V>)
    decreases |nodes| - after
  {
    match NextLink(nodes, cur, after)
    case None => true
    case Some(j) =>
      && nodes[j].inputs != [] && nodes[j].inputs[0] == cur
      && IdentityOp(nodes[j], sem)
      && LinksAreIdentity(nodes, nodes[j].outputs[0], j + 1, sem)
  }

  lemma {:induction false} EndOfChain(nodes: seq<Node>, cur: string, after: nat)
    ensures End(nodes, cur, Chain(nodes, cur, after)) ==
            match NextLink(nodes, cur, after)
            case None => cur
            case Some(j) => End(nodes, nodes[j].outputs[0], Chain(nodes, nodes[j].outputs[0], j + 1))
  {
  }

  /** The tail of such a chain has the value of its head. */
  lemma {:induction false} ChainValue<V(!new)>(nodes: seq<Node>, cur: string, after: nat, e: map<string, V>,
                                               env: map<string, V>, sem: Semantics<V>)
    requires Solves(nodes, |nodes|, e, env, sem) && cur in e
    requires LinksAreIdentity(nodes, cur, after, sem)
    ensures var tail := End(nodes, cur, Chain(nodes, cur, after)); tail in e && e[tail] == e[cur]
    decreases |nodes| - after
  {
    hide Chain, Users, IdentityOp;
    EndOfChain(nodes, cur, after);
    match NextLink(nodes, cur, after)
    case None =>
    case Some(j) =>
      LinkValue(nodes[j], cur, e, sem);
      ChainValue(nodes, nodes[j].outputs[0], j + 1, e, env, sem);
  }

  lemma {:induction false} LinkValue<V(!new)>(n: Node, cur: string, e: map<string, V>, sem: Semantics<V>)
    requires NodeHolds(n, e, sem) && |n.outputs| == 1 && n.inputs != [] && n.inputs[0] == cur && IdentityOp(n, sem)
    ensures n.outputs[0] in e && cur in e && e[n.outputs[0]] == e[cur]
  {
    assert n.outputs[0] in n.outputs && n.inputs[0] in n.inputs;
    assert Args(n.inputs, e)[0] == e[cur];
  }

  // ================= rewiring =================

  function Replace(xs: seq<string>, tail: string, gi: string): seq<string> {
    seq(|xs|, i requires 0 <= i < |xs| => if xs[i] == tail then gi else xs[i])
  }

  function RewireNode(n: Node, tail: string, gi: string): Node {
    n.(inputs := Replace(n.inputs, tail, gi))
  }

  /** Every reader of `tail` reads `gi` instead. */
  function Rewire(nodes: seq<Node>, tail: string, gi: string): seq<Node> {
    seq(|nodes|, i requires 0 <= i < |nodes| => RewireNode(nodes[i], tail, gi))
  }

  lemma {:induction false} RewireWellFormed(nodes: seq<Node>, given: set<string>, tail: string, gi: string)
    requires WellFormed(nodes, given) && gi in given
    ensures WellFormed(Rewire(nodes, tail, gi), given)
    ensures Defined(Rewire(nodes, tail, gi), given) == Defined(nodes, given)
  {
    if nodes != [] {
      var n := |nodes| - 1;
      RewireWellFormed(nodes[..n], given, tail, gi);
      assert Rewire(nodes, tail, gi)[..n] == Rewire(nodes[..n], tail, gi);
      DefinedGrows(nodes[..n], given, n);
      forall x | x in Replace(nodes[n].inputs, tail, gi)
        ensures x in Defined(nodes[..n], given)
      {
        assert x == gi || x in nodes[n].inputs;
      }
    }
  }

  lemma {:induction false} RewireSolves<V(!new)>(nodes: seq<Node>, e: map<string, V>, env: map<string, V>,
                                                 sem: Semantics<V>, tail: string, gi: string)
    requires Solves(nodes, |nodes|, e, env, sem)
    requires tail in e && gi in e && e[tail] == e[gi]
    ensures Solves(Rewire(nodes, tail, gi), |nodes|, e, env, sem)
  {
    forall i | 0 <= i < |nodes|
      ensures NodeHolds(RewireNode(nodes[i], tail, gi), e, sem)
    {
      assert NodeHolds(nodes[i], e, sem);
      RewiredHolds(nodes[i], e, sem, tail, gi);
    }
  }

  lemma {:induction false} RewiredHolds<V(!new)>(n: Node, e: map<string, V>, sem: Semantics<V>, tail: string,
                                                 gi: string)
    requires NodeHolds(n, e, sem)
    requires tail in e && gi in e && e[tail] == e[gi]
    ensures NodeHolds(RewireNode(n, tail, gi), e, sem)
  {
    var inputs := Replace(n.inputs, tail, gi);
    forall x | x in inputs
      ensures x in e
    {
      assert x == gi || x in n.inputs;
    }
    assert forall i | 0 <= i < |inputs| :: n.inputs[i] in n.inputs && e[inputs[i]] == e[n.inputs[i]];
    assert Args(inputs, e) == Args(n.inputs, e);
  }

  /** Rewiring the readers of a name to another name of the same value changes no value at all. */
  lemma {:induction false} RewirePreserves<V(!new)>(nodes: seq<Node>, env: map<string, V>, sem: Semantics<V>,
                                                    tail: string, gi: string)
    requires WellFormed(nodes, env.Keys) && gi in env
    requires tail in Defined(nodes, env.Keys)
    requires Eval(nodes, env, sem)[tail] == env[gi]
    ensures WellFormed(Rewire(nodes, tail, gi), env.Keys)
    ensures Eval(Rewire(nodes, tail, gi), env, sem) == Eval(nodes, env, sem)
  {
    var e := Eval(nodes, env, sem);
    EvalSolves(nodes, env, sem);
    RewireWellFormed(nodes, env.Keys, tail, gi);
    RewireSolves(nodes, e, env, sem, tail, gi);
    SolutionIsEval(Rewire(nodes, tail, gi), e, env, sem);
  }

  // ================= all inputs =================

  function CollapseOne(nodes: seq<Node>, gi: string): seq<Node> {
    match InputChain(nodes, gi)
    case None => nodes
    case Some(tail) => Rewire(nodes, tail, gi)
  }

  /** The graph inputs one after the other. */
  function Collapse(nodes: seq<Node>, order: seq<string>): seq<Node> {
    if order == [] then nodes else CollapseOne(Collapse(nodes, order[..|order| - 1]), order[|order| - 1])
  }

  function Collapsed(nodes: seq<Node>, order: seq<string>): nat {
    if order == [] then 0
    else
      var init := order[..|order| - 1];
      Collapsed(nodes, init) + if InputChain(Collapse(nodes, init), order[|order| - 1]).Some? then 1 else 0
  }

  /** In these values, the tail of every chain that gets collapsed has the value of its graph input. */
  ghost predicate TailsKeepValue<V(!new)>(nodes: seq<Node>, order: seq<string>, e: map<string, V>) {
    order == [] ||
    var init, gi := order[..|order| - 1], order[|order| - 1];
    && TailsKeepValue(nodes, init, e)
    && match InputChain(Collapse(nodes, init), gi)
       case None => true
       case Some(tail) => tail in e && gi in e && e[tail] == e[gi]
  }

  lemma {:induction false} CollapseWellFormed(nodes: seq<Node>, order: seq<string>, given: set<string>)
    requires WellFormed(nodes, given) && forall gi | gi in order :: gi in given
    ensures WellFormed(Collapse(nodes, order), given)
    ensures Defined(Collapse(nodes, order), given) == Defined(nodes, given)
  {
    if order != [] {
      var init, gi := order[..|order| - 1], order[|order| - 1];
      CollapseWellFormed(nodes, init, given);
      var mid := Collapse(nodes, init);
      if InputChain(mid, gi).Some? {
        RewireWellFormed(mid, given, InputChain(mid, gi).value, gi);
      }
    }
  }

  /** Collapsing changes no value if every collapsed chain hands on its input as a whole; single links
      may change it, as quantising and then dequantising does. */
  lemma {:induction false} CollapsePreserves<V(!new)>(nodes: seq<Node>, order: seq<string>, env: map<string, V>,
                                                      sem: Semantics<V>)
    requires WellFormed(nodes, env.Keys) && forall gi | gi in order :: gi in env
    requires TailsKeepValue(nodes, order, Eval(nodes, env, sem))
    ensures WellFormed(Collapse(nodes, order), env.Keys)
    ensures Eval(Collapse(nodes, order), env, sem) == Eval(nodes, env, sem)
  {
    hide InputChain, Eval, WellFormed, Defined;
    CollapseWellFormed(nodes, order, env.Keys);
    if order != [] {
      var init, gi := order[..|order| - 1], order[|order| - 1];
      CollapsePreserves(nodes, init, env, sem);
      CollapseOnePreserves(Collapse(nodes, init), gi, env, sem);
    }
  }

  lemma {:induction false} CollapseOnePreserves<V(!new)>(nodes: seq<Node>, gi: string, env: map<string, V>,
                                                         sem: Semantics<V>)
    requires WellFormed(nodes, env.Keys) && gi in env
    requires var e := Eval(nodes, env, sem);
             match InputChain(nodes, gi)
             case None => true
             case Some(tail) => tail in e && gi in e && e[tail] == e[gi]
    ensures WellFormed(CollapseOne(nodes, gi), env.Keys)
    ensures Eval(CollapseOne(nodes, gi), env, sem) == Eval(nodes, env, sem)
  {
    hide InputChain;
    if InputChain(nodes, gi).Some? {
      EvalSolves(nodes, env, sem);
      RewirePreserves(nodes, env, sem, InputChain(nodes, gi).value, gi);
    }
  }

  /** The links of every chain that gets collapsed, at the time it is collapsed, are identities. */
  ghost predicate CollapsedAreIdentity<V(!new)>(nodes: seq<Node>, order: seq<string>, sem: Semantics<V>) {
    order == [] ||
    var init, gi := order[..|order| - 1], order[|order| - 1];
    && CollapsedAreIdentity(nodes, init, sem)
    && (InputChain(Collapse(nodes, init), gi).Some? ==> LinksAreIdentity(Collapse(nodes, init), gi, 0, sem))
  }

  /** In particular a chain whose links are all identities does. */
  lemma {:induction false} IdentitiesKeepValue<V(!new)>(nodes: seq<Node>, order: seq<string>, env: map<string, V>,
                                                        sem: Semantics<V>)
    requires WellFormed(nodes, env.Keys) && forall gi | gi in order :: gi in env
    requires CollapsedAreIdentity(nodes, order, sem)
    ensures TailsKeepValue(nodes, order, Eval(nodes, env, sem))
  {
    hide InputChain, Eval, WellFormed, Defined;
    if order != [] {
      var init, gi := order[..|order| - 1], order[|order| - 1];
      IdentitiesKeepValue(nodes, init, env, sem);
      CollapsePreserves(nodes, init, env, sem);
      IdentityChainKeepsValue(Collapse(nodes, init), gi, env, sem);
    }
  }

  lemma {:induction false} IdentityChainKeepsValue<V(!new)>(nodes: seq<Node>, gi: string, env: map<string, V>,
                                                            sem: Semantics<V>)
    requires WellFormed(nodes, env.Keys) && gi in env
    requires InputChain(nodes, gi).Some? ==> LinksAreIdentity(nodes, gi, 0, sem)
    ensures var e := Eval(nodes, env, sem);
            match InputChain(nodes, gi)
            case None => true
            case Some(tail) => tail in e && gi in e && e[tail] == e[gi]
  {
    if InputChain(nodes, gi).Some? {
      EvalSolves(nodes, env, sem);
      ChainValue(nodes, gi, 0, Eval(nodes, env, sem), env, sem);
    }
  }

  // ================= pruning =================

  ghost predicate Feeds(nodes: seq<Node>, keep: set<nat>, x: string) {
    exists i | i in keep && i < |nodes| :: x in nodes[i].inputs
  }

  /** An edge node is supported if it feeds a kept node or a graph output. */
  ghost predicate Supported(nodes: seq<Node>, outputs: seq<string>, keep: set<nat>, n: Node) {
    n.op in EDGE_OPS ==> exists o | o in n.outputs :: Feeds(nodes, keep, o) || o in outputs
  }

  ghost predicate SelfSupporting(nodes: seq<Node>, outputs: seq<string>, keep: set<nat>) {
    forall i | i in keep :: i < |nodes| && Supported(nodes, outputs, keep, nodes[i])
  }

  /** The greatest set of nodes in which every kept edge node is supported. */
  ghost predicate Greatest(nodes: seq<Node>, outputs: seq<string>, keep: set<nat>) {
    && SelfSupporting(nodes, outputs, keep)
    && forall s: set<nat> | SelfSupporting(nodes, outputs, s) :: s <= keep
  }

  /** There is one such set, whatever the order of removal. */
  lemma {:induction false} GreatestUnique(nodes: seq<Node>, outputs: seq<string>, a: set<nat>, b: set<nat>)
    requires Greatest(nodes, outputs, a) && Greatest(nodes, outputs, b)
    ensures a == b
  {
  }

  lemma {:induction false} SupportGrows(nodes: seq<Node>, outputs: seq<string>, keep: set<nat>, more: set<nat>, n: Node)
    requires Supported(nodes, outputs, keep, n) && keep <= more
    ensures Supported(nodes, outputs, more, n)
  {
    if n.op in EDGE_OPS {
      var o :| o in n.outputs && (Feeds(nodes, keep, o) || o in outputs);
      assert Feeds(nodes, more, o) || o in outputs;
    }
  }

  /** It keeps every node that is no edge node, and every producer of something a kept node reads or
      of a graph output. */
  lemma {:induction false} GreatestKeeps(nodes: seq<Node>, outputs: seq<string>, keep: set<nat>, i: nat)
    requires Greatest(nodes, outputs, keep) && i < |nodes|
    requires nodes[i].op !in EDGE_OPS || exists o | o in nodes[i].outputs :: Feeds(nodes, keep, o) || o in outputs
    ensures i in keep
  {
    var more := keep + {i};
    forall k | k in more
      ensures k < |nodes| && Supported(nodes, outputs, more, nodes[k])
    {
      SupportGrows(nodes, outputs, keep, more, nodes[k]);
    }
    assert SelfSupporting(nodes, outputs, more);
  }

  function Kept(nodes: seq<Node>, keep: set<nat>, n: nat): (r: seq<Node>)
    requires n <= |nodes|
    ensures forall k | 0 <= k < |r| :: exists i :: i in keep && i < n && nodes[i] == r[k]
  {
    if n == 0 then [] else Kept(nodes, keep, n - 1) + (if n - 1 in keep then [nodes[n - 1]] else [])
  }

  /** The names that the kept nodes read, and the graph outputs. */
  ghost predicate Referenced(nodes: seq<Node>, outputs: seq<string>, keep: set<nat>, x: string) {
    x in outputs || Feeds(nodes, keep, x)
  }

  /** A referenced name that was defined before stays defined. */
  lemma {:induction false} StaysDefined(nodes: seq<Node>, outputs: seq<string>, keep: set<nat>, n: nat,
                                        given: set<string>, given': set<string>, x: string)
    requires n <= |nodes| && Greatest(nodes, outputs, keep)
    requires Referenced(nodes, outputs, keep, x)
    requires x in given ==> x in given'
    requires x in Defined(nodes[..n], given)
    ensures x in Defined(Kept(nodes, keep, n), given')
  {
    if n > 0 {
      assert nodes[..n][..n - 1] == nodes[..n - 1];
      var init := Kept(nodes, keep, n - 1);
      if x in nodes[n - 1].outputs {
        GreatestKeeps(nodes, outputs, keep, n - 1);
        assert (init + [nodes[n - 1]])[..|init|] == init;
      } else {
        StaysDefined(nodes, outputs, keep, n - 1, given, given', x);
        assert (init + [nodes[n - 1]])[..|init|] == init;
        assert init + [] == init;
      }
    }
  }

  lemma {:induction false} KeptDefinesLess(nodes: seq<Node>, keep: set<nat>, n: nat, given: set<string>,
                                           given': set<string>)
    requires n <= |nodes| && given' <= given
    ensures Defined(Kept(nodes, keep, n), given') <= Defined(nodes[..n], given)
  {
    if n > 0 {
      hide Defined;
      var init := Kept(nodes, keep, n - 1);
      KeptDefinesLess(nodes, keep, n - 1, given, given');
      assert nodes[..n] == nodes[..n - 1] + [nodes[n - 1]];
      DefinedSnoc(nodes[..n - 1], nodes[n - 1], given);
      DefinedSnoc(init, nodes[n - 1], given');
      assert init + [] == init;
    }
  }

  lemma {:induction false} DefinedSnoc(nodes: seq<Node>, n: Node, given: set<string>)
    ensures Defined(nodes + [n], given) == Defined(nodes, given) + Names(n.outputs)
  {
    assert (nodes + [n])[..|nodes|] == nodes;
  }

  /** Pruning keeps the order and the single assignments. */
  lemma {:induction false} KeptWellFormed(nodes: seq<Node>, outputs: seq<string>, keep: set<nat>, n: nat,
                                          given: set<string>, given': set<string>)
    requires n <= |nodes| && Greatest(nodes, outputs, keep)
    requires WellFormed(nodes, given) && given' <= given
    requires forall x | x in given && Referenced(nodes, outputs, keep, x) :: x in given'
    ensures WellFormed(Kept(nodes, keep, n), given')
  {
    if n > 0 {
      var init := Kept(nodes, keep, n - 1);
      KeptWellFormed(nodes, outputs, keep, n - 1, given, given');
      if n - 1 in keep {
        assert (init + [nodes[n - 1]])[..|init|] == init;
        NodeAt(nodes, given, n - 1);
        KeptDefinesLess(nodes, keep, n - 1, given, given');
        forall x | x in nodes[n - 1].inputs
          ensures x in Defined(init, given')
        {
          assert Feeds(nodes, keep, x);
          StaysDefined(nodes, outputs, keep, n - 1, given, given', x);
        }
      } else {
        assert init + [] == init;
      }
    }
  }

  lemma {:induction false} KeptFrom(nodes: seq<Node>, keep: set<nat>, n: nat, k: nat) returns (i: nat)
    requires n <= |nodes| && k < |Kept(nodes, keep, n)|
    ensures i in keep && i < n && nodes[i] == Kept(nodes, keep, n)[k]
  {
    if n - 1 in keep && k == |Kept(nodes, keep, n - 1)| {
      i := n - 1;
    } else {
      i := KeptFrom(nodes, keep, n - 1, k);
    }
  }

  lemma {:induction false} KeptSolves<V(!new)>(nodes: seq<Node>, keep: set<nat>, e: map<string, V>, env: map<string, V>,
                                               env': map<string, V>, sem: Semantics<V>)
    requires Solves(nodes, |nodes|, e, env, sem)
    requires forall x | x in env' :: x in env && env'[x] == env[x]
    ensures Solves(Kept(nodes, keep, |nodes|), |Kept(nodes, keep, |nodes|)|, e, env', sem)
  {
    var kept := Kept(nodes, keep, |nodes|);
    forall k | 0 <= k < |kept|
      ensures NodeHolds(kept[k], e, sem)
    {
      var i := KeptFrom(nodes, keep, |nodes|, k);
      assert NodeHolds(nodes[i], e, sem);
    }
  }

  /** Pruning keeps the value of every graph output. */
  lemma {:induction false} PrunePreserves<V(!new)>(nodes: seq<Node>, outputs: seq<string>, keep: set<nat>,
                                                   env: map<string, V>, env': map<string, V>, sem: Semantics<V>)
    requires WellFormed(nodes, env.Keys) && Greatest(nodes, outputs, keep)
    requires forall o | o in outputs :: o in Defined(nodes, env.Keys)
    requires forall x | x in env' :: x in env && env'[x] == env[x]
    requires forall x | x in env && Referenced(nodes, outputs, keep, x) :: x in env'
    ensures var kept := Kept(nodes, keep, |nodes|);
            && WellFormed(kept, env'.Keys)
            && forall o | o in outputs ::
                 o in Eval(kept, env', sem) && Eval(kept, env', sem)[o] == Eval(nodes, env, sem)[o]
  {
    var kept := Kept(nodes, keep, |nodes|);
    KeptWellFormed(nodes, outputs, keep, |nodes|, env.Keys, env'.Keys);
    EvalSolves(nodes, env, sem);
    KeptSolves(nodes, keep, Eval(nodes, env, sem), env, env', sem);
    SolutionIsEval(kept, Eval(nodes, env, sem), env', sem);
    assert nodes[..|nodes|] == nodes;
    forall o | o in outputs
      ensures o in Eval(kept, env', sem)
    {
      StaysDefined(nodes, outputs, keep, |nodes|, env.Keys, env'.Keys, o);
    }
  }

  // ================= in place =================

  function LiveInputs(nodes: seq<Node>, keep: set<nat>): set<string>
    requires forall i | i in keep :: i < |nodes|
  {
    set i, x | i in keep && x in nodes[i].inputs :: x
  }

  function Positions(n: nat): (s: set<nat>)
    ensures forall i: nat :: i in s <==> i < n
  {
    if n == 0 then {} else Positions(n - 1) + {n - 1}
  }

  predicate Dead(nodes: seq<Node>, outputs: seq<string>, live: set<string>, n: Node) {
    n.op in EDGE_OPS && !exists o | o in n.outputs :: o in live || o in outputs
  }

  lemma {:induction false} DeadIsUnsupported(nodes: seq<Node>, outputs: seq<string>, keep: set<nat>, n: Node)
    requires forall i | i in keep :: i < |nodes|
    ensures Dead(nodes, outputs, LiveInputs(nodes, keep), n) <==> !Supported(nodes, outputs, keep, n)
  {
    assert forall x :: x in LiveInputs(nodes, keep) <==> Feeds(nodes, keep, x);
  }

  function InputNames(nodes: seq<Node>): set<string> {
    if nodes == [] then {} else InputNames(nodes[..|nodes| - 1]) + Names(nodes[|nodes| - 1].inputs)
  }

  /** The inputs of the kept nodes are what the kept set reads. */
  lemma {:induction false} InputNamesOfKept(nodes: seq<Node>, keep: set<nat>, n: nat)
    requires n <= |nodes|
    ensures forall x :: x in InputNames(Kept(nodes, keep, n)) <==> exists i | i in keep && i < n :: x in nodes[i].inputs
  {
    if n > 0 {
      InputNamesOfKept(nodes, keep, n - 1);
      var init := Kept(nodes, keep, n - 1);
      assert (init + [nodes[n - 1]])[..|init|] == init;
      assert init + [] == init;
      forall x
        ensures x in InputNames(Kept(nodes, keep, n)) <==> exists i | i in keep && i < n :: x in nodes[i].inputs
      {
        assert n - 1 in keep && x in nodes[n - 1].inputs ==> exists i | i in keep && i < n :: x in nodes[i].inputs;
      }
    }
  }

  function Only(xs: seq<string>, wanted: set<string>): (r: seq<string>)
    ensures forall x :: x in r <==> x in xs && x in wanted
  {
    if xs == [] then []
    else Only(xs[..|xs| - 1], wanted) + (if xs[|xs| - 1] in wanted then [xs[|xs| - 1]] else [])
  }

  class Graph {
    const inputs: seq<string>
    const outputs: seq<string>
    var nodes: seq<Node>
    var initializers: seq<string>

    constructor (inputs: seq<string>, outputs: seq<string>, nodes: seq<Node>, initializers: seq<string>)
      ensures this.inputs == inputs && this.outputs == outputs && this.nodes == nodes
              && this.initializers == initializers
    {
      this.inputs, this.outputs, this.nodes, this.initializers := inputs, outputs, nodes, initializers;
    }

    function Given(): set<string>
      reads this
    {
      Names(inputs) + Names(initializers)
    }

    /** Single assignment, topological order, and every graph output defined. */
    predicate Valid()
      reads this
    {
      WellFormed(nodes, Given()) && forall o | o in outputs :: o in Defined(nodes, Given())
    }

    /** Rewrites the inputs of the nodes one by one. */
    method RewireReaders(tail: string, gi: string)
      modifies `nodes
      ensures nodes == Rewire(old(nodes), tail, gi)
    {
      ghost var before := nodes;
      for k := 0 to |nodes|
        invariant |nodes| == |before|
        invariant forall j | 0 <= j < |nodes| ::
                    nodes[j] == if j < k then RewireNode(before[j], tail, gi) else before[j]
      {
        var names := nodes[k].inputs;
        for idx := 0 to |names|
          invariant |names| == |before[k].inputs|
          invariant forall j | 0 <= j < |names| ::
                      names[j] == if j < idx then Replace(before[k].inputs, tail, gi)[j] else before[k].inputs[j]
        {
          if names[idx] == tail { names := names[idx := gi]; }
        }
        assert names == Replace(before[k].inputs, tail, gi);
        nodes := nodes[k := nodes[k].(inputs := names)];
      }
    }

    /** Drops edge nodes that feed nothing until none is left, then the unreferenced initializers. */
    method PruneDeadEdgeNodes() returns (ghost kept: set<nat>)
      modifies `nodes, `initializers
      ensures Greatest(old(nodes), outputs, kept)
      ensures nodes == Kept(old(nodes), kept, |old(nodes)|)
      ensures initializers == Only(old(initializers), Names(outputs) + InputNames(nodes))
    {
      var all := nodes;
      var keep: set<nat> := Positions(|all|);
      while true
        invariant forall i | i in keep :: i < |all|
        invariant forall s: set<nat> | SelfSupporting(all, outputs, s) :: s <= keep
        decreases keep
      {
        var live := LiveInputs(all, keep);
        var doomed := set i | i in keep && Dead(all, outputs, live, all[i]);
        forall i | i in keep
          ensures i in doomed <==> !Supported(all, outputs, keep, all[i])
        {
          DeadIsUnsupported(all, outputs, keep, all[i]);
        }
        if doomed == {} { break; }
        forall s: set<nat> | SelfSupporting(all, outputs, s)
          ensures s <= keep - doomed
        {
          forall i | i in s
            ensures i !in doomed
          {
            SupportGrows(all, outputs, s, keep, all[i]);
          }
        }
        keep := keep - doomed;
      }
      kept := keep;
      nodes := Kept(all, keep, |all|);
      initializers := Only(initializers, Names(outputs) + InputNames(nodes));
    }

    method RestoreFloatInputs(order: seq<string>) returns (collapsed: nat, ghost kept: set<nat>)
      requires Valid() && multiset(order) == multiset(inputs)
      modifies this
      ensures Valid()
      ensures collapsed == Collapsed(old(nodes), order)
      ensures Greatest(Collapse(old(nodes), order), outputs, kept)
      ensures nodes == Kept(Collapse(old(nodes), order), kept, |Collapse(old(nodes), order)|)
      ensures initializers == Only(old(initializers), Names(outputs) + InputNames(nodes))
    {
      hide WellFormed, Defined, InputChain;
      ghost var before, given := nodes, Given();
      SameNames(order, inputs);
      collapsed := 0;
      for k := 0 to |order|
        invariant initializers == old(initializers)
        invariant nodes == Collapse(before, order[..k]) && collapsed == Collapsed(before, order[..k])
      {
        assert order[..k + 1][..k] == order[..k];
        PrefixNames(order, k);
        CollapseWellFormed(before, order[..k], given);
        var gi := order[k];
        var tail := FindInputChain(nodes, gi, given);
        if tail.Some? {
          RewireReaders(tail.value, gi);
          collapsed := collapsed + 1;
        }
      }
      assert order[..|order|] == order;
      CollapseWellFormed(before, order, given);
      kept := PruneDeadEdgeNodes();
      PrunedIsValid(inputs, outputs, Collapse(before, order), old(initializers), kept);
    }
  }

  lemma {:induction false} SameNames(order: seq<string>, inputs: seq<string>)
    requires multiset(order) == multiset(inputs)
    ensures forall x | x in order :: x in Names(inputs)
  {
    forall x | x in order
      ensures x in Names(inputs)
    {
      assert x in multiset(inputs);
    }
  }

  lemma {:induction false} PrefixNames(order: seq<string>, k: nat)
    requires k < |order|
    ensures forall x | x in order[..k] :: x in order
  {
  }

  /** The names that have a value before the nodes of the pruned graph. */
  function PrunedGiven(inputs: seq<string>, outputs: seq<string>, nodes: seq<Node>, initializers: seq<string>,
                       keep: set<nat>): set<string> {
    Names(inputs) + Names(Only(initializers, Names(outputs) + InputNames(Kept(nodes, keep, |nodes|))))
  }

  lemma {:induction false} ReferencedStay(inputs: seq<string>, outputs: seq<string>, nodes: seq<Node>,
                                          initializers: seq<string>, keep: set<nat>)
    requires forall i | i in keep :: i < |nodes|
    ensures forall x | x in Names(inputs) + Names(initializers) && Referenced(nodes, outputs, keep, x) ::
              x in PrunedGiven(inputs, outputs, nodes, initializers, keep)
  {
    InputNamesOfKept(nodes, keep, |nodes|);
    forall x | x in Names(inputs) + Names(initializers) && Referenced(nodes, outputs, keep, x)
      ensures x in PrunedGiven(inputs, outputs, nodes, initializers, keep)
    {
      assert Feeds(nodes, keep, x) ==> x in InputNames(Kept(nodes, keep, |nodes|));
    }
  }

  lemma {:induction false} PrunedIsValid(inputs: seq<string>, outputs: seq<string>, nodes: seq<Node>,
                                         initializers: seq<string>, keep: set<nat>)
    requires WellFormed(nodes, Names(inputs) + Names(initializers)) && Greatest(nodes, outputs, keep)
    requires forall o | o in outputs :: o in Defined(nodes, Names(inputs) + Names(initializers))
    ensures WellFormed(Kept(nodes, keep, |nodes|), PrunedGiven(inputs, outputs, nodes, initializers, keep))
    ensures forall o | o in outputs ::
            o in Defined(Kept(nodes, keep, |nodes|), PrunedGiven(inputs, outputs, nodes, initializers, keep))
  {
    var given := Names(inputs) + Names(initializers);
    var given' := PrunedGiven(inputs, outputs, nodes, initializers, keep);
    ReferencedStay(inputs, outputs, nodes, initializers, keep);
    KeptWellFormed(nodes, outputs, keep, |nodes|, given, given');
    assert nodes[..|nodes|] == nodes;
    forall o | o in outputs
      ensures o in Defined(Kept(nodes, keep, |nodes|), given')
    {
      StaysDefined(nodes, outputs, keep, |nodes|, given, given', o);
    }
  }

  /** The rewrite preserves meaning: for every operator semantics and all values of the inputs and
      initializers under which each collapsed chain hands its graph input on, every graph output has the
      same value before and after. */
  lemma {:induction false} RestorePreservesMeaning<V(!new)>(inputs: seq<string>, outputs: seq<string>, nodes: seq<Node>,
                                                            initializers: seq<string>, order: seq<string>,
                                                            keep: set<nat>, env: map<string, V>, sem: Semantics<V>)
    requires env.Keys == Names(inputs) + Names(initializers)
    requires WellFormed(nodes, env.Keys) && forall o | o in outputs :: o in Defined(nodes, env.Keys)
    requires forall gi | gi in order :: gi in inputs
    requires TailsKeepValue(nodes, order, Eval(nodes, env, sem))
    requires Greatest(Collapse(nodes, order), outputs, keep)
    ensures var collapsed := Collapse(nodes, order);
            var given := PrunedGiven(inputs, outputs, collapsed, initializers, keep);
            var env' := map x | x in env && x in given :: env[x];
            var after := Kept(collapsed, keep, |collapsed|);
            && WellFormed(after, env'.Keys)
            && forall o | o in outputs ::
                 o in Eval(after, env', sem) && Eval(after, env', sem)[o] == Eval(nodes, env, sem)[o]
  {
    hide WellFormed, Defined, Eval, Greatest, Kept, TailsKeepValue, Collapse;
    var collapsed := Collapse(nodes, order);
    CollapsePreserves(nodes, order, env, sem);
    CollapseWellFormed(nodes, order, env.Keys);
    GreatestInRange(collapsed, outputs, keep);
    ReferencedStay(inputs, outputs, collapsed, initializers, keep);
    var given := PrunedGiven(inputs, outputs, collapsed, initializers, keep);
    var env' := map x | x in env && x in given :: env[x];
    PrunePreserves(collapsed, outputs, keep, env, env', sem);
  }

  lemma {:induction false} GreatestInRange(nodes: seq<Node>, outputs: seq<string>, keep: set<nat>)
    requires Greatest(nodes, outputs, keep)
    ensures forall i | i in keep :: i < |nodes|
  {
  }
}
