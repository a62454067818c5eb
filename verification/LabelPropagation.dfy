/** Label propagation as the source runs it (search/graph.py). */
module LabelPropagation {
  import opened Communities

  method BuildAdjacency(nodes: set<Id>, edges: seq<Edge>) returns (adjacency: Adjacency)
    ensures adjacency == AdjacencyOf(nodes, edges)
  {
    adjacency := map id | id in nodes :: map[];
    for i := 0 to |edges|
      invariant adjacency == AdjacencyOf(nodes, edges[..i])
    {
      assert edges[..i + 1][..i] == edges[..i];
      var e := edges[i];
      if e.source in adjacency && e.target in adjacency && e.source != e.target {
        adjacency := Raised(adjacency, e.source, e.target, e.weight);
        adjacency := Raised(adjacency, e.target, e.source, e.weight);
      }
    }
    assert edges[..|edges|] == edges;
  }

  /** What the totals gathered from the first records still lack of a community's. */
  ghost predicate Gathers(net: Net, labels: Labels, one: Id, i: nat, totals: map<int, real>, c: int)
    requires Labelled(net.ids, labels) && i <= |net.ids|
  {
    (if c in totals then totals[c] else 0.0) + Pull(net, net.ids[i..], labels, one, c) == Total(net, labels, one, c)
  }

  /** The keys of the totals, as they turned up. */
  ghost predicate Lists(found: seq<int>, totals: map<int, real>) {
    && (forall i :: 0 <= i < |found| ==> found[i] in totals)
    && (forall c :: c in totals ==> exists i :: 0 <= i < |found| && found[i] == c)
  }

  method Add(totals: map<int, real>, found: seq<int>, c: int, weight: real) returns (more: map<int, real>, list: seq<int>)
    requires Lists(found, totals)
    ensures Lists(list, more) && more == totals[c := (if c in totals then totals[c] else 0.0) + weight]
  {
    list := found;
    if c !in totals {
      list := found + [c];
      assert list[|found|] == c;
    }
    more := totals[c := (if c in totals then totals[c] else 0.0) + weight];
    forall d | d in more
      ensures exists i :: 0 <= i < |list| && list[i] == d
    {
      if d != c || c in totals {
        var i :| 0 <= i < |found| && found[i] == d;
        assert list[i] == d;
      }
    }
  }

  ghost predicate Gather(net: Net, labels: Labels, one: Id, i: nat, totals: map<int, real>)
    requires Labelled(net.ids, labels) && i <= |net.ids|
  {
    forall c :: Gathers(net, labels, one, i, totals, c)
  }

  /** The totals with the next record's edge added, if it is a neighbour, lack that much less. */
  lemma GathersOneMore(net: Net, labels: Labels, one: Id, i: nat, before: map<int, real>, next: nat, after: map<int, real>)
    requires Labelled(net.ids, labels) && next == i + 1 <= |net.ids| && Gather(net, labels, one, i, before)
    requires
      var (edge, c) := (Lookup(net.adjacency, one, net.ids[i]), labels[net.ids[i]]);
      after == if edge.None? then before else before[c := (if c in before then before[c] else 0.0) + edge.value]
    ensures Gather(net, labels, one, next, after)
  {
    assert net.ids[i..][1..] == net.ids[next..];
    forall c
      ensures Gathers(net, labels, one, next, after, c)
    {
      assert Gathers(net, labels, one, i, before, c);
    }
  }

  lemma GatheredAll(net: Net, labels: Labels, one: Id, totals: map<int, real>)
    requires Labelled(net.ids, labels) && Gather(net, labels, one, |net.ids|, totals)
    ensures forall c :: c in totals ==> totals[c] == Total(net, labels, one, c)
    ensures forall c :: c !in totals ==> Total(net, labels, one, c) == 0.0
  {
    forall c
      ensures Total(net, labels, one, c) == if c in totals then totals[c] else 0.0
    {
      assert Gathers(net, labels, one, |net.ids|, totals, c);
    }
  }

  /** The communities with a total are those of neighbours, and the first records' are among them. */
  ghost predicate AreNear(net: Net, labels: Labels, one: Id, i: nat, totals: map<int, real>)
    requires Labelled(net.ids, labels) && i <= |net.ids|
  {
    && (forall k :: 0 <= k < i && Lookup(net.adjacency, one, net.ids[k]).Some? ==> labels[net.ids[k]] in totals)
    && forall c :: c in totals ==> NextTo(net, labels, one, c)
  }

  lemma OneMoreIsNear(net: Net, labels: Labels, one: Id, i: nat, before: map<int, real>, next: nat, after: map<int, real>)
    requires Labelled(net.ids, labels) && next == i + 1 <= |net.ids| && AreNear(net, labels, one, i, before)
    requires
      after.Keys == before.Keys
                    + if Lookup(net.adjacency, one, net.ids[i]).Some? then {labels[net.ids[i]]} else {}
    ensures AreNear(net, labels, one, next, after)
  {
    if Lookup(net.adjacency, one, net.ids[i]).Some? {
      assert NextTo(net, labels, one, labels[net.ids[i]]);
    }
    assert forall c :: c in after ==> c in before || c == labels[net.ids[i]];
  }

  lemma AllAreNear(net: Net, labels: Labels, one: Id, totals: map<int, real>)
    requires Labelled(net.ids, labels) && AreNear(net, labels, one, |net.ids|, totals)
    ensures forall other :: other in net.ids && Lookup(net.adjacency, one, other).Some? ==> labels[other] in totals
    ensures forall c :: c in totals ==> NextTo(net, labels, one, c)
  {
  }

  /** Adds the weight of the edge to one record, if there is such an edge. */
  method TakeIn(net: Net, labels: Labels, one: Id, i: nat, ghost next: nat, totals: map<int, real>, found: seq<int>)
    returns (more: map<int, real>, list: seq<int>)
    requires Valid(net) && Labelled(net.ids, labels) && one in net.ids && next == i + 1 <= |net.ids|
    requires Gather(net, labels, one, i, totals) && Lists(found, totals) && AreNear(net, labels, one, i, totals)
    ensures Gather(net, labels, one, next, more) && Lists(list, more) && AreNear(net, labels, one, next, more)
  {
    more, list := totals, found;
    var neighbour := net.ids[i];
    if neighbour in net.adjacency[one] {
      more, list := Add(totals, found, labels[neighbour], net.adjacency[one][neighbour]);
    }
    GathersOneMore(net, labels, one, i, totals, next, more);
    OneMoreIsNear(net, labels, one, i, totals, next, more);
  }

  /** The weight that joins the record to each neighbouring community, and the communities as they turned up. */
  method TotalsOf(net: Net, labels: Labels, one: Id) returns (totals: map<int, real>, found: seq<int>)
    requires Valid(net) && Labelled(net.ids, labels) && one in net.ids
    ensures Lists(found, totals)
    ensures forall c :: c in totals ==> totals[c] == Total(net, labels, one, c)
    ensures forall c :: c !in totals ==> Total(net, labels, one, c) == 0.0
    ensures forall other :: other in net.ids && Lookup(net.adjacency, one, other).Some? ==> labels[other] in totals
    ensures forall c :: c in totals ==> NextTo(net, labels, one, c)
  {
    totals, found := map[], [];
    assert net.ids[0..] == net.ids;
    for i := 0 to |net.ids|
      invariant Gather(net, labels, one, i, totals)
      invariant Lists(found, totals) && AreNear(net, labels, one, i, totals)
    {
      totals, found := TakeIn(net, labels, one, i, i + 1, totals, found);
    }
    GatheredAll(net, labels, one, totals);
    AllAreNear(net, labels, one, totals);
  }

  /** The greatest total, and the lowest label that has it. */
  method Heaviest(totals: map<int, real>, found: seq<int>) returns (heaviest: real, lowest: int)
    requires found != [] && Lists(found, totals)
    ensures lowest in totals && totals[lowest] == heaviest
    ensures forall c :: c in totals ==> totals[c] < heaviest || (totals[c] == heaviest && lowest <= c)
  {
    heaviest := totals[found[0]];
    for i := 1 to |found|
      invariant exists k :: 0 <= k < |found| && totals[found[k]] == heaviest
      invariant forall k :: 0 <= k < i ==> totals[found[k]] <= heaviest
    {
      if totals[found[i]] > heaviest {
        heaviest := totals[found[i]];
      }
    }
    var first :| 0 <= first < |found| && totals[found[first]] == heaviest;
    lowest := found[first];
    for i := 0 to |found|
      invariant lowest in totals && totals[lowest] == heaviest
      invariant forall k :: 0 <= k < i && totals[found[k]] == heaviest ==> lowest <= found[k]
    {
      if totals[found[i]] == heaviest && found[i] < lowest {
        lowest := found[i];
      }
    }
  }

  /** Switches a record to the heaviest neighbouring community if that is strictly heavier than its own. */
  method Visit(net: Net, labels: Labels, one: Id) returns (after: Labels, changed: bool)
    requires Valid(net) && Labelled(net.ids, labels) && one in net.ids
    ensures after == Visited(net, labels, one) && changed == (after != labels)
  {
    LeadingLeads(net, labels, one, net.ids);
    ghost var leading := Leading(net, labels, one, net.ids);
    var totals, found := TotalsOf(net, labels, one);
    if found == [] {
      assert leading.None?;
      return labels, false;
    }
    assert NextTo(net, labels, one, found[0]);
    assert leading.Some? && leading.value in totals;
    var heaviest, lowest := Heaviest(totals, found);
    assert NextTo(net, labels, one, lowest);
    assert lowest == leading.value;
    var own := if labels[one] in totals then totals[labels[one]] else 0.0;
    if heaviest > own {
      return labels[one := lowest], true;
    }
    return labels, false;
  }

  /** Visits every record once, in order. */
  method Pass(net: Net, labels: Labels) returns (after: Labels, changed: bool)
    requires Valid(net) && Labelled(net.ids, labels)
    ensures after == PassFrom(net, labels, 0) && changed == (after != labels)
    ensures Labelled(net.ids, after)
  {
    after, changed := labels, false;
    for i := 0 to |net.ids|
      invariant Labelled(net.ids, after) && PassFrom(net, after, i) == PassFrom(net, labels, 0)
      invariant if changed then Inside(net, net.ids, after) > Inside(net, net.ids, labels) else after == labels
    {
      SwitchGains(net, after, net.ids[i]);
      var switched;
      after, switched := Visit(net, after, net.ids[i]);
      changed := changed || switched;
    }
  }

  /** Numbers the communities in the order of their smallest members. */
  method Renumber(ids: seq<Id>, labels: Labels) returns (communities: Labels)
    requires Labelled(ids, labels)
    ensures communities == Renumbered(ids, labels)
  {
    var canonical: map<int, int> := map[];
    for i := 0 to |ids|
      invariant canonical == Numbers(ids, labels, i)
    {
      if labels[ids[i]] !in canonical {
        canonical := canonical[labels[ids[i]] := |canonical|];
      }
    }
    NumbersHold(ids, labels);
    communities := map id | id in ids :: canonical[labels[id]];
  }

  /** Labels each record with its index. */
  method Start(ordered: seq<Id>) returns (labels: Labels)
    ensures labels == Initial(ordered)
  {
    labels := map[];
    for i := 0 to |ordered|
      invariant labels == Initial(ordered[..i])
    {
      assert ordered[..i + 1][..i] == ordered[..i];
      labels := labels[ordered[i] := i];
    }
    assert ordered[..|ordered|] == ordered;
  }

  /** Passes until one changes no label, but no more often than the limit. */
  method Propagate(net: Net, initial: Labels, maxIterations: nat) returns (labels: Labels, converged: bool)
    requires Valid(net) && Labelled(net.ids, initial)
    ensures (labels, converged) == Passes(net, initial, maxIterations) && Labelled(net.ids, labels)
  {
    labels, converged := initial, false;
    for pass := 0 to maxIterations
      invariant Labelled(net.ids, labels) && !converged
      invariant Passes(net, labels, maxIterations - pass) == Passes(net, initial, maxIterations)
    {
      var after, changed := Pass(net, labels);
      labels := after;
      if !changed {
        return labels, true;
      }
    }
  }

  /** The communities and whether they converged; `None` for a pass limit below one. */
  method LabelCommunities(nodes: seq<Id>, edges: seq<Edge>, maxIterations: int) returns (result: Option<(Labels, bool)>)
    ensures result == if maxIterations < 1 then None else Some(CommunitiesOf(nodes, edges, maxIterations))
  {
    if maxIterations < 1 {
      return None;
    }
    var ordered := Sorted(nodes);
    SortedIsAscending(nodes);
    InitialIsInRange(ordered);
    NetOfIsValid(nodes, edges);
    var labels := Start(ordered);
    var adjacency := BuildAdjacency((set id | id in nodes), edges);
    var after, converged := Propagate(Net(ordered, adjacency), labels, maxIterations);
    var communities := Renumber(ordered, after);
    return Some((communities, converged));
  }
}
