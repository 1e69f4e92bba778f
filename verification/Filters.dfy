/** The filter language of custom tables: the size check made on validation, the
    compiler to SQL predicates, and what a filter means. */
module Filters {
  import opened Outcomes
  import opened Keyset
  import opened TableValues

  datatype Condition = Condition(field: string, op: Option<string>, value: Json)

  /** What stands under the key `and` or `or`. */
  datatype Group = Absent | NotAList | Items(items: seq<Spec>)

  /** A filter as sent: anything, or an object whose keys `and`, `or` and `field`
      may each be present. */
  datatype Spec = NotAnObject | Node(conj: Group, disj: Group, condition: Option<Condition>)

  // ------------------------------------------------------------ size limits

  predicate IsGroup(spec: Spec) {
    spec.Node? && !(spec.conj.Absent? && spec.disj.Absent?)
  }

  /** The children of a group: those under `and`, then those under `or`. */
  function ChildrenOf(spec: Spec): seq<Spec>
    requires spec.Node?
  {
    (if spec.conj.Items? then spec.conj.items else []) + (if spec.disj.Items? then spec.disj.items else [])
  }

  function Greater(a: nat, b: nat): nat { if a >= b then a else b }

  /** How far the deepest node lies below `spec`. */
  function Depth(spec: Spec): nat {
    if !IsGroup(spec) then 0
    else
      Greater(if spec.conj.Items? then DepthAll(spec.conj.items) else 0,
              if spec.disj.Items? then DepthAll(spec.disj.items) else 0)
  }

  /** One more than the deepest of several trees, or zero without any. */
  function DepthAll(items: seq<Spec>): nat {
    if items == [] then 0 else Greater(1 + Depth(items[0]), DepthAll(items[1..]))
  }

  /** How many conditions the tree holds. */
  function Leaves(spec: Spec): nat {
    if !IsGroup(spec) then 1
    else
      (if spec.conj.Items? then LeavesAll(spec.conj.items) else 0)
      + (if spec.disj.Items? then LeavesAll(spec.disj.items) else 0)
  }

  function LeavesAll(items: seq<Spec>): nat {
    if items == [] then 0 else Leaves(items[0]) + LeavesAll(items[1..])
  }

  predicate WithinLimits(spec: Spec) { Depth(spec) <= 8 && Leaves(spec) <= 64 }

  function Nodes(spec: Spec): nat {
    if !IsGroup(spec) then 1
    else
      1 + (if spec.conj.Items? then NodesAll(spec.conj.items) else 0)
      + (if spec.disj.Items? then NodesAll(spec.disj.items) else 0)
  }

  function NodesAll(items: seq<Spec>): nat {
    if items == [] then 0 else Nodes(items[0]) + NodesAll(items[1..])
  }

  lemma {:induction false} AllOfTwo(a: seq<Spec>, b: seq<Spec>)
    ensures LeavesAll(a + b) == LeavesAll(a) + LeavesAll(b)
    ensures NodesAll(a + b) == NodesAll(a) + NodesAll(b)
    ensures DepthAll(a + b) == Greater(DepthAll(a), DepthAll(b))
  {
    if a == [] {
      assert a + b == b;
    } else {
      AllOfTwo(a[1..], b);
      assert (a + b)[1..] == a[1..] + b;
    }
  }

  /** A group is measured by its children. */
  lemma GroupTotals(spec: Spec)
    requires IsGroup(spec)
    ensures Leaves(spec) == LeavesAll(ChildrenOf(spec))
    ensures Nodes(spec) == 1 + NodesAll(ChildrenOf(spec))
    ensures Depth(spec) == DepthAll(ChildrenOf(spec))
  {
    AllOfTwo(if spec.conj.Items? then spec.conj.items else [], if spec.disj.Items? then spec.disj.items else []);
  }

  datatype Pending = Pending(node: Spec, depth: nat)

  /** What a stack of pending nodes still holds: how many conditions, how many
      nodes, and how deep below the root. */
  function PendingLeaves(pending: seq<Pending>): nat {
    if pending == [] then 0
    else PendingLeaves(pending[..|pending| - 1]) + Leaves(pending[|pending| - 1].node)
  }

  function PendingNodes(pending: seq<Pending>): nat {
    if pending == [] then 0
    else PendingNodes(pending[..|pending| - 1]) + Nodes(pending[|pending| - 1].node)
  }

  function PendingDepth(pending: seq<Pending>): nat {
    if pending == [] then 0
    else
      Greater(PendingDepth(pending[..|pending| - 1]),
              pending[|pending| - 1].depth + Depth(pending[|pending| - 1].node))
  }

  lemma PendingTotals(pending: seq<Pending>, top: Pending)
    ensures PendingLeaves(pending + [top]) == PendingLeaves(pending) + Leaves(top.node)
    ensures PendingNodes(pending + [top]) == PendingNodes(pending) + Nodes(top.node)
    ensures PendingDepth(pending + [top]) == Greater(PendingDepth(pending), top.depth + Depth(top.node))
  {
    assert (pending + [top])[..|pending|] == pending;
  }

  lemma LastTotals(items: seq<Spec>, last: Spec)
    ensures LeavesAll(items + [last]) == LeavesAll(items) + Leaves(last)
    ensures NodesAll(items + [last]) == NodesAll(items) + Nodes(last)
    ensures DepthAll(items + [last]) == Greater(DepthAll(items), 1 + Depth(last))
  {
    AllOfTwo(items, [last]);
  }

  datatype SizeError = TooNested | TooManyConditions

  /** Push every child one level deeper. */
  method PushChildren(pending: seq<Pending>, children: seq<Spec>, depth: nat) returns (r: seq<Pending>)
    ensures PendingLeaves(r) == PendingLeaves(pending) + LeavesAll(children)
    ensures PendingNodes(r) == PendingNodes(pending) + NodesAll(children)
    ensures PendingDepth(r)
         == if children == [] then PendingDepth(pending) else Greater(PendingDepth(pending), depth + DepthAll(children))
  {
    hide PendingLeaves, PendingNodes, PendingDepth, Leaves, Nodes, Depth;
    r := pending;
    for i := 0 to |children|
      invariant PendingLeaves(r) == PendingLeaves(pending) + LeavesAll(children[..i])
      invariant PendingNodes(r) == PendingNodes(pending) + NodesAll(children[..i])
      invariant PendingDepth(r)
             == if i == 0 then PendingDepth(pending) else Greater(PendingDepth(pending), depth + DepthAll(children[..i]))
    {
      hide LeavesAll, NodesAll, DepthAll;
      PendingTotals(r, Pending(children[i], depth + 1));
      LastTotals(children[..i], children[i]);
      assert children[..i] + [children[i]] == children[..i + 1];
      if i == 0 {
        NoDepth(children[..i]);
      }
      r := r + [Pending(children[i], depth + 1)];
    }
    assert children[..|children|] == children;
  }

  lemma NoDepth(items: seq<Spec>)
    requires items == []
    ensures DepthAll(items) == 0
  {
  }

  /** The iterative check with a stack of nodes yet to visit accepts exactly the
      trees within both limits. */
  method CheckFilterSize(spec: Spec) returns (r: Result<(), SizeError>)
    ensures r.Ok? <==> WithinLimits(spec)
    ensures r == Err(TooNested) ==> Depth(spec) > 8
    ensures r == Err(TooManyConditions) ==> Leaves(spec) > 64
  {
    hide Nodes, Leaves, Depth, LeavesAll, NodesAll, DepthAll;
    var clauses, pending := 0, [Pending(spec, 0)];
    PendingTotals([], Pending(spec, 0));
    assert [] + pending == pending;
    while pending != []
      invariant clauses <= 64
      invariant Leaves(spec) == clauses + PendingLeaves(pending)
      invariant PendingDepth(pending) <= Depth(spec)
      invariant Depth(spec) <= 8 || Depth(spec) == PendingDepth(pending)
      decreases PendingNodes(pending)
    {
      hide PendingLeaves, PendingNodes, PendingDepth;
      var current, rest := pending[|pending| - 1], pending[..|pending| - 1];
      assert pending == rest + [current];
      PendingTotals(rest, current);
      if current.depth > 8 {
        return Err(TooNested);
      }
      if IsGroup(current.node) {
        GroupTotals(current.node);
        NoDepth([]);
        pending := PushChildren(rest, ChildrenOf(current.node), current.depth);
      } else {
        LeafTotals(current.node);
        pending := rest;
        clauses := clauses + 1;
        if clauses > 64 {
          return Err(TooManyConditions);
        }
      }
    }
    return Ok(());
  }

  lemma LeafTotals(spec: Spec)
    requires !IsGroup(spec)
    ensures Leaves(spec) == Nodes(spec) == 1 && Depth(spec) == 0
  {
  }
}
