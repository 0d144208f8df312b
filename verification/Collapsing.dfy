/** What collapsing the input chains and pruning leave of them: nothing reads a collapsed chain's tail, its
    readers read the graph input, and its links stay exactly as long as a graph output needs them. */
module Collapsing {
  import opened Text
  import opened Graphs
  import opened Prepare

  // ================= readers =================

  /** In how many places a name is read. */
  function Readings(nodes: seq<Node>, x: string): nat {
    if nodes == [] then 0 else Readings(nodes[..|nodes| - 1], x) + multiset(nodes[|nodes| - 1].inputs)[x]
  }

  lemma {:induction false} UsesCount(inputs: seq<string>, x: string, i: nat)
    ensures |Uses(inputs, x, i)| == multiset(inputs)[x]
    ensures forall k: nat :: k in Uses(inputs, x, i) <==> k == i && x in inputs
  {
    if inputs != [] {
      var init, last := inputs[..|inputs| - 1], inputs[|inputs| - 1];
      UsesCount(init, x, i);
      assert inputs == init + [last];
      assert multiset(inputs) == multiset(init) + multiset{last};
      assert x in inputs <==> x in init || x == last;
    }
  }

  /** The list of a name's consumers has one entry for each place where the name is read, and names exactly the
      nodes that read it. */
  lemma {:induction false} UsersCount(nodes: seq<Node>, x: string)
    ensures |Users(nodes, x)| == Readings(nodes, x)
    ensures forall i: nat :: i in Users(nodes, x) <==> i < |nodes| && x in nodes[i].inputs
  {
    if nodes != [] {
      hide Uses;
      var n := |nodes| - 1;
      UsersCount(nodes[..n], x);
      UsesCount(nodes[n].inputs, x, n);
      forall i: nat
        ensures i in Users(nodes, x) <==> i < |nodes| && x in nodes[i].inputs
      {
        assert i < n ==> nodes[..n][i] == nodes[i];
      }
    }
  }

  // ================= one chain =================

  function Out(nodes: seq<Node>, j: nat): string
    requires j < |nodes| && IsLink(nodes[j])
  {
    nodes[j].outputs[0]
  }

  /** A walk from a name: each link is the only reader of what the one before it puts out. */
  predicate IsWalk(nodes: seq<Node>, cur: string, after: nat, c: seq<nat>) {
    && (forall q | 0 <= q < |c| :: after <= c[q] < |nodes| && IsLink(nodes[c[q]]))
    && (forall q, r | 0 <= q < r < |c| :: c[q] < c[r])
    && (c != [] ==> Users(nodes, cur) == [c[0]])
    && forall q | 0 < q < |c| :: Users(nodes, Out(nodes, c[q - 1])) == [c[q]]
  }

  /** The chain is such a walk, and no link follows its end. */
  lemma {:induction false} ChainIsWalk(nodes: seq<Node>, cur: string, after: nat)
    ensures var c := Chain(nodes, cur, after);
            && IsWalk(nodes, cur, after, c)
            && NextLink(nodes, End(nodes, cur, c), if c == [] then after else c[|c| - 1] + 1).None?
    decreases |nodes| - after
  {
    hide Users, IsLink, IsWalk, End;
    EndOfNothing(nodes, cur, after);
    match NextLink(nodes, cur, after)
    case None =>
    case Some(j) =>
      LinkHasOutput(nodes[j]);
      var cur', c' := nodes[j].outputs[0], Chain(nodes, nodes[j].outputs[0], j + 1);
      ChainIsWalk(nodes, cur', j + 1);
      WalkGrows(nodes, cur, after, j, c');
  }

  lemma {:induction false} LinkHasOutput(n: Node)
    requires IsLink(n)
    ensures |n.outputs| == 1
  {
  }

  lemma {:induction false} WalkGrows(nodes: seq<Node>, cur: string, after: nat, j: nat, c: seq<nat>)
    requires after <= j < |nodes| && IsLink(nodes[j]) && Users(nodes, cur) == [j]
    requires IsWalk(nodes, Out(nodes, j), j + 1, c)
    ensures IsWalk(nodes, cur, after, [j] + c)
    ensures End(nodes, cur, [j] + c) == End(nodes, Out(nodes, j), c)
  {
    hide Users;
    var d := [j] + c;
    forall q | 0 < q < |d|
      ensures Users(nodes, Out(nodes, d[q - 1])) == [d[q]]
    {
      assert d[q] == c[q - 1] && (q > 1 ==> d[q - 1] == c[q - 2]);
    }
  }

  /** The chain that is collapsed at `gi`, link by link. */
  lemma {:induction false} InputChainIsWalk(nodes: seq<Node>, gi: string, tail: string)
    requires InputChain(nodes, gi) == Some(tail)
    ensures var c := Chain(nodes, gi, 0);
            && c != [] && IsWalk(nodes, gi, 0, c) && tail == Out(nodes, c[|c| - 1]) && Users(nodes, tail) != []
            && NextLink(nodes, tail, c[|c| - 1] + 1).None?
  {
    hide Users, IsLink, NextLink;
    ChainIsWalk(nodes, gi, 0);
  }

  /** Node `j` is the only one that reads `x`, in one place. */
  predicate ReadOnlyBy(nodes: seq<Node>, x: string, j: nat) {
    j < |nodes| && x in nodes[j].inputs && Readings(nodes, x) == 1
  }

  predicate IsEdge(n: Node) {
    n.op in {"QuantizeLinear", "DequantizeLinear", "Cast"} && |n.outputs| == 1
  }

  /** A longest walk from `gi` over edge nodes, each the only reader of what the one before it puts out, to a name
      that something reads. */
  predicate Longest(nodes: seq<Node>, gi: string, c: seq<nat>, tail: string) {
    && c != [] && (forall q | 0 <= q < |c| :: c[q] < |nodes| && IsEdge(nodes[c[q]]))
    && (forall q, r | 0 <= q < r < |c| :: c[q] < c[r])
    && ReadOnlyBy(nodes, gi, c[0])
    && (forall q | 0 < q < |c| :: ReadOnlyBy(nodes, nodes[c[q - 1]].outputs[0], c[q]))
    && tail == nodes[c[|c| - 1]].outputs[0] && Readings(nodes, tail) > 0
    && forall j | c[|c| - 1] < j < |nodes| && IsEdge(nodes[j]) :: !ReadOnlyBy(nodes, tail, j)
  }

  lemma {:induction false} OnlyReader(nodes: seq<Node>, x: string, j: nat)
    ensures Users(nodes, x) == [j] <==> ReadOnlyBy(nodes, x, j)
    ensures Users(nodes, x) == [] <==> Readings(nodes, x) == 0
  {
    hide Users;
    UsersCount(nodes, x);
    if ReadOnlyBy(nodes, x, j) {
      assert j in Users(nodes, x);
      assert |Users(nodes, x)| == 1;
    }
    if Users(nodes, x) == [j] {
      assert j in Users(nodes, x);
    }
  }

  lemma {:induction false} LinksAreEdges(n: Node)
    ensures IsLink(n) <==> IsEdge(n)
  {
  }

  lemma {:induction false} WalkIsChain(nodes: seq<Node>, cur: string, after: nat, c: seq<nat>)
    requires IsWalk(nodes, cur, after, c)
    requires NextLink(nodes, End(nodes, cur, c), if c == [] then after else c[|c| - 1] + 1).None?
    ensures Chain(nodes, cur, after) == c
    decreases |c|
  {
    hide IsWalk, NextLink, IsLink, End, Users, Out, Chain;
    EndOfNothing(nodes, cur, after);
    if c != [] {
      WalkRest(nodes, cur, after, c);
      ChainStep(nodes, cur, after, c[0]);
      LinkHasOutput(nodes[c[0]]);
      WalkIsChain(nodes, Out(nodes, c[0]), c[0] + 1, c[1..]);
      assert c == [c[0]] + c[1..];
    }
  }

  lemma {:induction false} ChainStep(nodes: seq<Node>, cur: string, after: nat, j: nat)
    requires NextLink(nodes, cur, after) == Some(j)
    ensures j < |nodes| && IsLink(nodes[j]) && Chain(nodes, cur, after) == [j] + Chain(nodes, Out(nodes, j), j + 1)
  {
  }

  lemma {:induction false} EndOfNothing(nodes: seq<Node>, cur: string, after: nat)
    ensures End(nodes, cur, []) == cur && IsWalk(nodes, cur, after, [])
    ensures NextLink(nodes, cur, after).None? ==> Chain(nodes, cur, after) == []
  {
  }

  lemma {:induction false} WalkRest(nodes: seq<Node>, cur: string, after: nat, c: seq<nat>)
    requires IsWalk(nodes, cur, after, c) && c != []
    ensures NextLink(nodes, cur, after) == Some(c[0]) && IsWalk(nodes, Out(nodes, c[0]), c[0] + 1, c[1..])
    ensures End(nodes, cur, c) == End(nodes, Out(nodes, c[0]), c[1..])
    ensures |c| > 1 ==> c[1..][|c| - 2] == c[|c| - 1]
  {
    hide Users, IsLink;
    var d := c[1..];
    assert Users(nodes, cur)[0] == c[0];
    forall q | 0 < q < |d|
      ensures Users(nodes, Out(nodes, d[q - 1])) == [d[q]]
    {
      assert d[q] == c[q + 1] && d[q - 1] == c[(q + 1) - 1];
    }
    assert d != [] ==> Users(nodes, Out(nodes, c[1 - 1])) == [c[1]];
  }

  /** A graph input has a chain exactly if there is such a walk, and that is the chain. */
  lemma {:induction false} InputChainMeans(nodes: seq<Node>, gi: string, tail: string)
    ensures InputChain(nodes, gi) == Some(tail) <==> exists c :: Longest(nodes, gi, c, tail)
    ensures InputChain(nodes, gi) == Some(tail) ==> Longest(nodes, gi, Chain(nodes, gi, 0), tail)
  {
    hide Chain, IsEdge, IsLink, Users, Readings, ReadOnlyBy;
    if InputChain(nodes, gi) == Some(tail) {
      WalkIsLongest(nodes, gi, tail);
    }
    if c :| Longest(nodes, gi, c, tail) {
      LongestIsWalk(nodes, gi, c, tail);
      WalkIsChain(nodes, gi, 0, c);
      OnlyReader(nodes, tail, 0);
    }
  }

  lemma {:induction false} WalkIsLongest(nodes: seq<Node>, gi: string, tail: string)
    requires InputChain(nodes, gi) == Some(tail)
    ensures Longest(nodes, gi, Chain(nodes, gi, 0), tail)
  {
    hide Chain, IsEdge, IsLink, Users, Readings, ReadOnlyBy, InputChain;
    InputChainIsWalk(nodes, gi, tail);
    var c := Chain(nodes, gi, 0);
    forall j: nat, x
      ensures Users(nodes, x) == [j] <==> ReadOnlyBy(nodes, x, j)
      ensures Users(nodes, x) == [] <==> Readings(nodes, x) == 0
    {
      OnlyReader(nodes, x, j);
    }
    forall q | 0 <= q < |c|
      ensures IsEdge(nodes[c[q]])
    {
      LinksAreEdges(nodes[c[q]]);
    }
    forall j | c[|c| - 1] < j < |nodes| && IsEdge(nodes[j])
      ensures !ReadOnlyBy(nodes, tail, j)
    {
      LinksAreEdges(nodes[j]);
    }
  }

  lemma {:induction false} LongestIsWalk(nodes: seq<Node>, gi: string, c: seq<nat>, tail: string)
    requires Longest(nodes, gi, c, tail)
    ensures IsWalk(nodes, gi, 0, c) && tail == End(nodes, gi, c) && NextLink(nodes, tail, c[|c| - 1] + 1).None?
  {
    hide Chain, IsEdge, IsLink, Users, Readings, ReadOnlyBy;
    forall q | 0 <= q < |c|
      ensures IsLink(nodes[c[q]])
    {
      LinksAreEdges(nodes[c[q]]);
    }
    OnlyReader(nodes, gi, c[0]);
    forall q | 0 < q < |c|
      ensures Users(nodes, Out(nodes, c[q - 1])) == [c[q]]
    {
      OnlyReader(nodes, Out(nodes, c[q - 1]), c[q]);
    }
    match NextLink(nodes, tail, c[|c| - 1] + 1)
    case None =>
    case Some(j) =>
      LinksAreEdges(nodes[j]);
      OnlyReader(nodes, tail, j);
  }

  /** What a link puts out is no graph input, initializer or other link's output. */
  lemma {:induction false} OutIsNew(nodes: seq<Node>, given: set<string>, j: nat)
    requires WellFormed(nodes, given) && j < |nodes| && IsLink(nodes[j])
    ensures Out(nodes, j) !in given
    ensures forall i | 0 <= i < |nodes| && i != j && IsLink(nodes[i]) :: Out(nodes, i) != Out(nodes, j)
  {
    hide WellFormed, Defined;
    NodeAt(nodes, given, j);
    DefinedGrows(nodes[..j], given, 0);
    assert Out(nodes, j) in nodes[j].outputs;
    forall i | 0 <= i < |nodes| && i != j && IsLink(nodes[i])
      ensures Out(nodes, i) != Out(nodes, j)
    {
      assert Out(nodes, i) in nodes[i].outputs;
      NodeAt(nodes, given, i);
      if i < j {
        OneProducer(nodes, given, i, j, Out(nodes, i));
      } else {
        OneProducer(nodes, given, j, i, Out(nodes, j));
      }
    }
  }

  lemma {:induction false} OneProducer(nodes: seq<Node>, given: set<string>, i: nat, j: nat, x: string)
    requires WellFormed(nodes, given) && i < j < |nodes| && x in nodes[i].outputs
    ensures x !in nodes[j].outputs
  {
    hide WellFormed, Defined;
    NodeAt(nodes, given, i);
    NodeAt(nodes, given, j);
    assert nodes[..j][..i + 1] == nodes[..i + 1];
    DefinedGrows(nodes[..j], given, i + 1);
  }

  lemma {:induction false} TailIsNew(nodes: seq<Node>, given: set<string>, gi: string, tail: string)
    requires WellFormed(nodes, given) && InputChain(nodes, gi) == Some(tail)
    ensures tail !in given
  {
    hide WellFormed, Users;
    InputChainIsWalk(nodes, gi, tail);
    var c := Chain(nodes, gi, 0);
    OutIsNew(nodes, given, c[|c| - 1]);
  }

  // ================= one collapse =================

  /** Collapsing an input's chain leaves every node in place and changes exactly the places that read the
      chain's tail, to the graph input; nothing reads the tail any more. */
  lemma {:induction false} CollapseUnreads(nodes: seq<Node>, given: set<string>, gi: string)
    requires WellFormed(nodes, given) && gi in given
    ensures var after := CollapseOne(nodes, gi);
            && |after| == |nodes|
            && (forall i | 0 <= i < |nodes| ::
                  && after[i] == nodes[i].(inputs := after[i].inputs) && |after[i].inputs| == |nodes[i].inputs|
                  && forall p | 0 <= p < |nodes[i].inputs| ::
                       after[i].inputs[p] == if InputChain(nodes, gi) == Some(nodes[i].inputs[p]) then gi
                                             else nodes[i].inputs[p])
            && (forall tail, i | InputChain(nodes, gi) == Some(tail) && 0 <= i < |after| :: tail !in after[i].inputs)
  {
    hide InputChain, WellFormed;
    if InputChain(nodes, gi).Some? {
      TailIsNew(nodes, given, gi, InputChain(nodes, gi).value);
    }
  }

  lemma {:induction false} UsesRewired(inputs: seq<string>, tail: string, gi: string, x: string, i: nat)
    requires x != gi
    ensures Uses(Replace(inputs, tail, gi), x, i) == if x == tail then [] else Uses(inputs, x, i)
  {
    if inputs != [] {
      hide Uses;
      var n := |inputs| - 1;
      var after := Replace(inputs, tail, gi);
      UsesRewired(inputs[..n], tail, gi, x, i);
      assert after[..n] == Replace(inputs[..n], tail, gi);
      LastUse(inputs, x, i);
      LastUse(after, x, i);
      assert x == tail ==> after[n] != x;
      assert x != tail ==> (after[n] == x <==> inputs[n] == x);
    }
  }

  lemma {:induction false} LastUse(inputs: seq<string>, x: string, i: nat)
    requires inputs != []
    ensures var n := |inputs| - 1;
            Uses(inputs, x, i) == if inputs[n] == x then Uses(inputs[..n], x, i) + [i] else Uses(inputs[..n], x, i)
  {
  }

  lemma {:induction false} UsersRewired(nodes: seq<Node>, tail: string, gi: string, x: string)
    requires x != gi
    ensures Users(Rewire(nodes, tail, gi), x) == if x == tail then [] else Users(nodes, x)
  {
    if nodes != [] {
      hide Uses;
      var n := |nodes| - 1;
      UsersRewired(nodes[..n], tail, gi, x);
      UsesRewired(nodes[n].inputs, tail, gi, x, n);
      assert Rewire(nodes, tail, gi)[..n] == Rewire(nodes[..n], tail, gi);
    }
  }

  /** A collapse takes all consumers from the tail and no name but a graph input gets any. */
  lemma {:induction false} UsersCollapsed(nodes: seq<Node>, gi: string, x: string)
    requires x != gi
    ensures Users(CollapseOne(nodes, gi), x) == if InputChain(nodes, gi) == Some(x) then [] else Users(nodes, x)
  {
    hide InputChain, Users;
    if InputChain(nodes, gi).Some? {
      UsersRewired(nodes, InputChain(nodes, gi).value, gi, x);
    }
  }

  // ================= all collapses =================

  /** When the `k`-th graph input's turn comes, it has a chain, which ends in `tail`. */
  predicate ChainAt(nodes: seq<Node>, order: seq<string>, k: nat, tail: string) {
    k < |order| && InputChain(Collapse(nodes, order[..k]), order[k]) == Some(tail)
  }

  lemma {:induction false} CollapseStep(nodes: seq<Node>, order: seq<string>, k: nat)
    requires k < |order|
    ensures Collapse(nodes, order[..k + 1]) == CollapseOne(Collapse(nodes, order[..k]), order[k])
  {
    assert order[..k + 1][..k] == order[..k];
  }

  /** The graph inputs that have a chain when their turn comes. */
  function Chained(nodes: seq<Node>, order: seq<string>): set<nat> {
    set k: nat | k < |order| && InputChain(Collapse(nodes, order[..k]), order[k]).Some?
  }

  /** The number that is reported counts them. */
  lemma {:induction false} CollapsedCounts(nodes: seq<Node>, order: seq<string>)
    ensures Collapsed(nodes, order) == |Chained(nodes, order)|
  {
    hide InputChain, Collapse;
    if order == [] {
      assert Chained(nodes, order) == {};
    } else {
      hide Collapsed, Chained;
      var n, init := |order| - 1, order[..|order| - 1];
      CollapsedCounts(nodes, init);
      ChainedStep(nodes, order);
      CountStep(nodes, order);
    }
  }

  lemma {:induction false} CountStep(nodes: seq<Node>, order: seq<string>)
    requires order != []
    ensures Collapsed(nodes, order) == Collapsed(nodes, order[..|order| - 1])
            + if InputChain(Collapse(nodes, order[..|order| - 1]), order[|order| - 1]).Some? then 1 else 0
  {
    hide InputChain, Collapse;
  }

  lemma {:induction false} ChainedStep(nodes: seq<Node>, order: seq<string>)
    requires order != []
    ensures var n, init := |order| - 1, order[..|order| - 1];
            && n !in Chained(nodes, init)
            && Chained(nodes, order) == Chained(nodes, init)
               + if InputChain(Collapse(nodes, init), order[n]).Some? then {n} else {}
  {
    hide InputChain, Collapse;
    var n, init := |order| - 1, order[..|order| - 1];
    forall k: nat | k < n
      ensures k in Chained(nodes, init) <==> k in Chained(nodes, order)
    {
      assert init[..k] == order[..k] && init[k] == order[k];
    }
  }

  /** Once collapsed, a tail stays unread. */
  lemma {:induction false} TailStaysUnread(nodes: seq<Node>, order: seq<string>, given: set<string>, k: nat, m: nat,
                                           tail: string)
    requires WellFormed(nodes, given) && forall gi | gi in order :: gi in given
    requires ChainAt(nodes, order, k, tail) && k < m <= |order|
    ensures Users(Collapse(nodes, order[..m]), tail) == [] && tail !in given
    ensures m < |order| ==> !ChainAt(nodes, order, m, tail)
    decreases m
  {
    hide WellFormed, Users, Collapse, CollapseOne, IsWalk, NextLink, Chain;
    CollapseWellFormed(nodes, order[..k], given);
    TailIsNew(Collapse(nodes, order[..k]), given, order[k], tail);
    CollapseStep(nodes, order, m - 1);
    UsersCollapsed(Collapse(nodes, order[..m - 1]), order[m - 1], tail);
    if k < m - 1 {
      TailStaysUnread(nodes, order, given, k, m - 1, tail);
    }
    if m < |order| && ChainAt(nodes, order, m, tail) {
      InputChainIsWalk(Collapse(nodes, order[..m]), order[m], tail);
    }
  }

  /** Every place of the original graph that read a collapsed tail reads the graph input of that chain; every
      other place reads what it read. */
  lemma {:induction false} CollapsedReadings(nodes: seq<Node>, order: seq<string>, given: set<string>, m: nat)
    requires WellFormed(nodes, given) && (forall gi | gi in order :: gi in given) && m <= |order|
    ensures var after := Collapse(nodes, order[..m]);
            && |after| == |nodes|
            && (forall i | 0 <= i < |nodes| ::
                  after[i] == nodes[i].(inputs := after[i].inputs) && |after[i].inputs| == |nodes[i].inputs|)
            && forall i, p | 0 <= i < |nodes| && 0 <= p < |nodes[i].inputs| ::
                 var x := nodes[i].inputs[p];
                 && (forall k | 0 <= k < m && ChainAt(nodes, order, k, x) :: after[i].inputs[p] == order[k])
                 && ((forall k | 0 <= k < m :: !ChainAt(nodes, order, k, x)) ==> after[i].inputs[p] == x)
  {
    hide WellFormed, InputChain, Collapse, CollapseOne;
    if m == 0 {
      assert Collapse(nodes, order[..0]) == nodes by { NothingCollapsed(nodes, order); }
    } else {
      var mid, after := Collapse(nodes, order[..m - 1]), Collapse(nodes, order[..m]);
      CollapsedReadings(nodes, order, given, m - 1);
      CollapseWellFormed(nodes, order[..m - 1], given);
      CollapseStep(nodes, order, m - 1);
      assert order[m - 1] in given;
      CollapseUnreads(mid, given, order[m - 1]);
      forall i, p | 0 <= i < |nodes| && 0 <= p < |nodes[i].inputs|
        ensures var x := nodes[i].inputs[p];
                && (forall k | 0 <= k < m && ChainAt(nodes, order, k, x) :: after[i].inputs[p] == order[k])
                && ((forall k | 0 <= k < m :: !ChainAt(nodes, order, k, x)) ==> after[i].inputs[p] == x)
      {
        ReadingStep(nodes, order, given, m, nodes[i].inputs[p], mid[i].inputs[p], after[i].inputs[p]);
      }
    }
  }

  lemma {:induction false} NothingCollapsed(nodes: seq<Node>, order: seq<string>)
    ensures Collapse(nodes, order[..0]) == nodes
  {
  }

  /** A place that read `x` reads `y` before and `z` after one more collapse. */
  lemma {:induction false} ReadingStep(nodes: seq<Node>, order: seq<string>, given: set<string>, m: nat, x: string,
                                       y: string, z: string)
    requires WellFormed(nodes, given) && (forall gi | gi in order :: gi in given) && 0 < m <= |order|
    requires forall k | 0 <= k < m - 1 && ChainAt(nodes, order, k, x) :: y == order[k]
    requires (forall k | 0 <= k < m - 1 :: !ChainAt(nodes, order, k, x)) ==> y == x
    requires z == if ChainAt(nodes, order, m - 1, y) then order[m - 1] else y
    ensures forall k | 0 <= k < m && ChainAt(nodes, order, k, x) :: z == order[k]
    ensures (forall k | 0 <= k < m :: !ChainAt(nodes, order, k, x)) ==> z == x
  {
    hide WellFormed, InputChain, Collapse;
    if k :| 0 <= k < m - 1 && ChainAt(nodes, order, k, x) {
      TailStaysUnread(nodes, order, given, k, m - 1, x);
      assert order[k] in given;
      if ChainAt(nodes, order, m - 1, y) {
        TailStaysUnread(nodes, order, given, m - 1, m, y);
      }
    }
  }

  // ================= the links of a collapsed chain =================

  /** A name that only a later link reads is no chain's tail. */
  lemma {:induction false} NotATail(nodes: seq<Node>, given: set<string>, gi: string, i: nat, j: nat)
    requires WellFormed(nodes, given) && i < j < |nodes| && IsLink(nodes[i]) && IsLink(nodes[j])
    requires Users(nodes, Out(nodes, i)) == [j]
    ensures InputChain(nodes, gi) != Some(Out(nodes, i))
  {
    hide WellFormed, Users, IsLink;
    if InputChain(nodes, gi) == Some(Out(nodes, i)) {
      InputChainIsWalk(nodes, gi, Out(nodes, i));
      var c := Chain(nodes, gi, 0);
      OutIsNew(nodes, given, i);
    }
  }

  /** What two consecutive links of a collapsed chain hand on stays read by the second one only. */
  lemma {:induction false} HandedOn(nodes: seq<Node>, order: seq<string>, given: set<string>, k: nat, m: nat, i: nat,
                                    j: nat)
    requires WellFormed(nodes, given) && (forall gi | gi in order :: gi in given) && k <= m <= |order|
    requires i < j < |nodes| && IsLink(nodes[i]) && IsLink(nodes[j])
    requires Users(Collapse(nodes, order[..k]), Out(nodes, i)) == [j]
    ensures Users(Collapse(nodes, order[..m]), Out(nodes, i)) == [j]
    decreases m
  {
    hide WellFormed, Users, Collapse, ChainAt;
    if k < m {
      HandedOn(nodes, order, given, k, m - 1, i, j);
      CollapseStep(nodes, order, m - 1);
      var mid := Collapse(nodes, order[..m - 1]);
      CollapseWellFormed(nodes, order[..m - 1], given);
      CollapsedReadings(nodes, order, given, m - 1);
      assert Out(mid, i) == Out(nodes, i);
      NotATail(mid, given, order[m - 1], i, j);
      OutIsNew(nodes, given, i);
      UsersCollapsed(mid, order[m - 1], Out(nodes, i));
    }
  }

  /** Who reads what link `q` of the collapsed chain `c` puts out, when all is collapsed: the next link, or, if it
      is the last, nothing. */
  lemma {:induction false} LinkReaders(nodes: seq<Node>, order: seq<string>, given: set<string>, k: nat, tail: string,
                                       q: nat)
    requires WellFormed(nodes, given) && forall gi | gi in order :: gi in given
    requires ChainAt(nodes, order, k, tail) && q < |Chain(Collapse(nodes, order[..k]), order[k], 0)|
    ensures var c, after := Chain(Collapse(nodes, order[..k]), order[k], 0), Collapse(nodes, order);
            && |after| == |nodes| && c[q] < |nodes| && IsLink(nodes[c[q]])
            && after[c[q]].op == nodes[c[q]].op && after[c[q]].outputs == nodes[c[q]].outputs
            && Users(after, Out(nodes, c[q])) == if q == |c| - 1 then [] else [c[q + 1]]
  {
    hide WellFormed, Users, Collapse, Chain;
    var mid := Collapse(nodes, order[..k]);
    var c := Chain(mid, order[k], 0);
    assert order[..|order|] == order;
    CollapsedReadings(nodes, order, given, k);
    CollapsedReadings(nodes, order, given, |order|);
    InputChainIsWalk(mid, order[k], tail);
    assert IsLink(mid[c[q]]) && Out(mid, c[q]) == Out(nodes, c[q]);
    if q == |c| - 1 {
      TailStaysUnread(nodes, order, given, k, |order|, tail);
    } else {
      assert IsLink(mid[c[q + 1]]) && IsLink(nodes[c[q + 1]]);
      assert Users(mid, Out(mid, c[(q + 1) - 1])) == [c[q + 1]];
      HandedOn(nodes, order, given, k, |order|, c[q], c[q + 1]);
    }
  }

  /** A link of a collapsed chain is kept exactly if what it or a link behind it puts out is a graph output. */
  lemma {:induction false} LinksStayIfNeeded(nodes: seq<Node>, order: seq<string>, given: set<string>,
                                             outputs: seq<string>, keep: set<nat>, k: nat, tail: string, q: nat)
    requires WellFormed(nodes, given) && forall gi | gi in order :: gi in given
    requires Greatest(Collapse(nodes, order), outputs, keep)
    requires ChainAt(nodes, order, k, tail) && q < |Chain(Collapse(nodes, order[..k]), order[k], 0)|
    ensures var c := Chain(Collapse(nodes, order[..k]), order[k], 0);
            c[q] in keep <==>
            exists r | q <= r < |c| :: c[r] < |nodes| && IsLink(nodes[c[r]]) && Out(nodes, c[r]) in outputs
    decreases |Chain(Collapse(nodes, order[..k]), order[k], 0)| - q
  {
    hide WellFormed, Users, Collapse, Chain, Greatest;
    var c, after := Chain(Collapse(nodes, order[..k]), order[k], 0), Collapse(nodes, order);
    LinkReaders(nodes, order, given, k, tail, q);
    if q < |c| - 1 {
      LinksStayIfNeeded(nodes, order, given, outputs, keep, k, tail, q + 1);
    }
    LinkKept(after, outputs, keep, c[q], if q == |c| - 1 then None else Some(c[q + 1]));
    assert c[q] in keep <==> Out(nodes, c[q]) in outputs || (q < |c| - 1 && c[q + 1] in keep);
  }

  /** A link that at most one node reads is kept exactly if that node is kept or a graph output needs it. */
  lemma {:induction false} LinkKept(nodes: seq<Node>, outputs: seq<string>, keep: set<nat>, i: nat, reader: Option<nat>)
    requires Greatest(nodes, outputs, keep) && i < |nodes| && IsLink(nodes[i])
    requires Users(nodes, Out(nodes, i)) == if reader.None? then [] else [reader.value]
    ensures i in keep <==> Out(nodes, i) in outputs || (reader.Some? && reader.value in keep)
  {
    hide Users, Feeds;
    var o := Out(nodes, i);
    FedIfRead(nodes, keep, o, reader);
    assert nodes[i].outputs == [o];
    assert Supported(nodes, outputs, keep, nodes[i]) <==> Feeds(nodes, keep, o) || o in outputs;
    if Feeds(nodes, keep, o) || o in outputs {
      GreatestKeeps(nodes, outputs, keep, i);
    }
  }

  lemma {:induction false} FedIfRead(nodes: seq<Node>, keep: set<nat>, x: string, reader: Option<nat>)
    requires Users(nodes, x) == if reader.None? then [] else [reader.value]
    ensures Feeds(nodes, keep, x) <==> reader.Some? && reader.value in keep
  {
    hide Users;
    UsersCount(nodes, x);
    assert reader.Some? ==> reader.value in Users(nodes, x);
    if i :| i in keep && i < |nodes| && x in nodes[i].inputs {
      assert i in Users(nodes, x);
    }
  }

  /** In the finished graph no node reads the tail of a collapsed chain. */
  lemma {:induction false} FinishedUnreads(nodes: seq<Node>, order: seq<string>, given: set<string>, keep: set<nat>,
                                           k: nat, tail: string)
    requires WellFormed(nodes, given) && (forall gi | gi in order :: gi in given) && ChainAt(nodes, order, k, tail)
    ensures var after := Collapse(nodes, order);
            forall n | n in Kept(after, keep, |after|) :: tail !in n.inputs
  {
    hide WellFormed, Users, Collapse, ChainAt;
    var after := Collapse(nodes, order);
    assert order[..|order|] == order;
    assert k < |order| by { assert ChainAt(nodes, order, k, tail); InRange(nodes, order, k, tail); }
    TailStaysUnread(nodes, order, given, k, |order|, tail);
    UsersCount(after, tail);
    forall n | n in Kept(after, keep, |after|)
      ensures tail !in n.inputs
    {
      var q :| 0 <= q < |Kept(after, keep, |after|)| && Kept(after, keep, |after|)[q] == n;
      var i :| i in keep && i < |after| && after[i] == n;
      assert i !in Users(after, tail);
    }
  }

  lemma {:induction false} InRange(nodes: seq<Node>, order: seq<string>, k: nat, tail: string)
    requires ChainAt(nodes, order, k, tail)
    ensures k < |order|
  {
  }
}
