/** Communities by label propagation (search/graph.py). */
module Communities {

  /** Record ids; only their order matters. */
  type Id = int

  /** The names of edge sources; only their order matters. */
  type Kind = int

  datatype Edge = Edge(source: Id, target: Id, weight: real, kind: Kind)

  type Adjacency = map<Id, map<Id, real>>
  type Labels = map<Id, int>

  // ----- The records and their heaviest edges

  ghost predicate Ascending(ids: seq<Id>) {
    forall i, j :: 0 <= i < j < |ids| ==> ids[i] < ids[j]
  }

  function Inserted(ids: seq<Id>, id: Id): seq<Id> {
    if ids == [] || id < ids[0] then [id] + ids
    else if id == ids[0] then ids
    else [ids[0]] + Inserted(ids[1..], id)
  }

  /** The distinct records, in order. */
  function Sorted(nodes: seq<Id>): seq<Id> {
    if nodes == [] then [] else Inserted(Sorted(nodes[1..]), nodes[0])
  }

  lemma {:induction false} InsertedIsAscending(ids: seq<Id>, id: Id)
    requires Ascending(ids)
    ensures Ascending(Inserted(ids, id))
    ensures forall x :: x in Inserted(ids, id) <==> x in ids || x == id
  {
    if ids != [] && ids[0] < id {
      assert Ascending(ids[1..]);
      InsertedIsAscending(ids[1..], id);
      var rest := Inserted(ids[1..], id);
      forall j | 0 <= j < |rest|
        ensures ids[0] < rest[j]
      {
        assert rest[j] in rest;
      }
    }
  }

  lemma {:induction false} SortedIsAscending(nodes: seq<Id>)
    ensures Ascending(Sorted(nodes))
    ensures forall id :: id in Sorted(nodes) <==> id in nodes
  {
    if nodes != [] {
      SortedIsAscending(nodes[1..]);
      InsertedIsAscending(Sorted(nodes[1..]), nodes[0]);
    }
  }

  lemma {:induction false} AscendingIsUnique(a: seq<Id>, b: seq<Id>)
    requires Ascending(a) && Ascending(b) && forall id :: id in a <==> id in b
    ensures a == b
  {
    assert a == [] <==> b == [] by {
      if a != [] {
        assert a[0] in a;
      }
      if b != [] {
        assert b[0] in b;
      }
    }
    if a != [] {
      assert a[0] in a && b[0] in b;
      assert a[0] in b && b[0] in a;
      forall id
        ensures id in a[1..] <==> id in b[1..]
      {
        assert id in a <==> id in [a[0]] + a[1..];
        assert id in b <==> id in [b[0]] + b[1..];
      }
      AscendingIsUnique(a[1..], b[1..]);
    }
  }

  /** The sorted records depend on which there are, not on their order. */
  lemma SortedIgnoresOrder(nodes: seq<Id>, shuffled: seq<Id>)
    requires forall id :: id in nodes <==> id in shuffled
    ensures Sorted(nodes) == Sorted(shuffled)
  {
    SortedIsAscending(nodes);
    SortedIsAscending(shuffled);
    AscendingIsUnique(Sorted(nodes), Sorted(shuffled));
  }

  predicate Joins(e: Edge, one: Id, other: Id) {
    e.source != e.target && ((e.source == one && e.target == other) || (e.source == other && e.target == one))
  }

  function Raised(adjacency: Adjacency, one: Id, other: Id, weight: real): Adjacency
    requires one in adjacency
  {
    var row := adjacency[one];
    adjacency[one := row[other := if other in row && row[other] > weight then row[other] else weight]]
  }

  function Joined(adjacency: Adjacency, e: Edge): Adjacency {
    if e.source in adjacency && e.target in adjacency && e.source != e.target then
      Raised(Raised(adjacency, e.source, e.target, e.weight), e.target, e.source, e.weight)
    else adjacency
  }

  function Empty(nodes: set<Id>): Adjacency {
    map id | id in nodes :: map[]
  }

  function AdjacencyOf(nodes: set<Id>, edges: seq<Edge>): Adjacency {
    if edges == [] then Empty(nodes) else Joined(AdjacencyOf(nodes, edges[..|edges| - 1]), edges[|edges| - 1])
  }

  datatype Option<T> = None | Some(value: T)

  function Lookup(adjacency: Adjacency, one: Id, other: Id): Option<real> {
    if one in adjacency && other in adjacency[one] then Some(adjacency[one][other]) else None
  }

  /** The greatest weight of the edges that join the pair. */
  function HeaviestOf(edges: seq<Edge>, one: Id, other: Id): Option<real> {
    if edges == [] then None
    else
      var (before, e) := (HeaviestOf(edges[..|edges| - 1], one, other), edges[|edges| - 1]);
      if !Joins(e, one, other) then before
      else if before.Some? && before.value > e.weight then before
      else Some(e.weight)
  }

  lemma JoinedAt(nodes: set<Id>, e: Edge, before: Adjacency, one: Id, other: Id)
    requires before.Keys == nodes && (one in nodes && other in nodes ==> Lookup(before, one, other) == Lookup(before, other, one))
    ensures Joined(before, e).Keys == nodes
    ensures
      Lookup(Joined(before, e), one, other)
      == if one !in nodes || other !in nodes || !Joins(e, one, other) then Lookup(before, one, other)
         else if Lookup(before, one, other).Some? && Lookup(before, one, other).value > e.weight then Lookup(before, one, other)
         else Some(e.weight)
  {
  }

  /** The adjacency holds the heaviest edge of each pair of records of the graph, in both directions. */
  lemma {:induction false} AdjacencyHoldsTheHeaviest(nodes: set<Id>, edges: seq<Edge>, one: Id, other: Id)
    ensures AdjacencyOf(nodes, edges).Keys == nodes
    ensures
      Lookup(AdjacencyOf(nodes, edges), one, other)
      == if one in nodes && other in nodes then HeaviestOf(edges, one, other) else None
    ensures Lookup(AdjacencyOf(nodes, edges), one, other) == Lookup(AdjacencyOf(nodes, edges), other, one)
  {
    if edges != [] {
      var before := edges[..|edges| - 1];
      AdjacencyHoldsTheHeaviest(nodes, before, one, other);
      JoinedAt(nodes, edges[|edges| - 1], AdjacencyOf(nodes, before), one, other);
      JoinedAt(nodes, edges[|edges| - 1], AdjacencyOf(nodes, before), other, one);
    }
  }

  /** Some edge joins the pair with this weight, and none with a greater one. */
  ghost predicate IsHeaviest(edges: seq<Edge>, one: Id, other: Id, heaviest: Option<real>) {
    match heaviest
    case None => forall e :: e in edges ==> !Joins(e, one, other)
    case Some(weight) =>
      && (exists e :: e in edges && Joins(e, one, other) && e.weight == weight)
      && (forall e :: e in edges && Joins(e, one, other) ==> e.weight <= weight)
  }

  lemma {:induction false} HeaviestOfIs(edges: seq<Edge>, one: Id, other: Id)
    ensures IsHeaviest(edges, one, other, HeaviestOf(edges, one, other))
  {
    if edges != [] {
      var (before, e) := (edges[..|edges| - 1], edges[|edges| - 1]);
      HeaviestOfIs(before, one, other);
      assert forall x :: x in edges <==> x in before || x == e;
    }
  }

  lemma {:induction false} HeaviestIgnoresOrder(edges: seq<Edge>, shuffled: seq<Edge>, one: Id, other: Id)
    requires forall e :: e in edges <==> e in shuffled
    ensures HeaviestOf(edges, one, other) == HeaviestOf(shuffled, one, other)
  {
    HeaviestOfIs(edges, one, other);
    HeaviestOfIs(shuffled, one, other);
  }

  lemma AdjacenciesAgree(a: Adjacency, b: Adjacency)
    requires a.Keys == b.Keys && forall one, other :: Lookup(a, one, other) == Lookup(b, one, other)
    ensures a == b
  {
    forall one | one in a
      ensures a[one] == b[one]
    {
      forall other: Id
        ensures other in a[one] <==> other in b[one]
        ensures other in a[one] ==> a[one][other] == b[one][other]
      {
        assert Lookup(a, one, other) == Lookup(b, one, other);
      }
    }
  }

  /** The adjacency depends on which edges there are, not on their order. */
  lemma AdjacencyIgnoresOrder(nodes: set<Id>, edges: seq<Edge>, shuffled: seq<Edge>)
    requires forall e :: e in edges <==> e in shuffled
    ensures AdjacencyOf(nodes, edges) == AdjacencyOf(nodes, shuffled)
  {
    forall one, other
      ensures Lookup(AdjacencyOf(nodes, edges), one, other) == Lookup(AdjacencyOf(nodes, shuffled), one, other)
    {
      AdjacencyHoldsTheHeaviest(nodes, edges, one, other);
      AdjacencyHoldsTheHeaviest(nodes, shuffled, one, other);
      HeaviestIgnoresOrder(edges, shuffled, one, other);
    }
    AdjacencyHoldsTheHeaviest(nodes, edges, 0, 0);
    AdjacencyHoldsTheHeaviest(nodes, shuffled, 0, 0);
    AdjacenciesAgree(AdjacencyOf(nodes, edges), AdjacencyOf(nodes, shuffled));
  }

  // ----- Passes over the records

  /** The records in order, and which are adjacent. */
  datatype Net = Net(ids: seq<Id>, adjacency: Adjacency)

  function NetOf(nodes: seq<Id>, edges: seq<Edge>): Net {
    Net(Sorted(nodes), AdjacencyOf((set id | id in nodes), edges))
  }

  ghost predicate Valid(net: Net) {
    && Ascending(net.ids) && (forall id :: id in net.adjacency <==> id in net.ids)
    && (forall one, other :: Lookup(net.adjacency, one, other) == Lookup(net.adjacency, other, one))
    && (forall one, other :: Lookup(net.adjacency, one, other).Some? ==> one != other && one in net.ids && other in net.ids)
  }

  lemma {:induction false} NoSelfLoops(edges: seq<Edge>, one: Id)
    ensures HeaviestOf(edges, one, one) == None
  {
    if edges != [] {
      NoSelfLoops(edges[..|edges| - 1], one);
    }
  }

  lemma NetOfIsValid(nodes: seq<Id>, edges: seq<Edge>)
    ensures Valid(NetOf(nodes, edges))
  {
    var all := set id | id in nodes;
    SortedIsAscending(nodes);
    AdjacencyHoldsTheHeaviest(all, edges, 0, 0);
    forall one, other
      ensures Lookup(AdjacencyOf(all, edges), one, other) == Lookup(AdjacencyOf(all, edges), other, one)
      ensures Lookup(AdjacencyOf(all, edges), one, other).Some? ==> one != other && one in nodes && other in nodes
    {
      AdjacencyHoldsTheHeaviest(all, edges, one, other);
      NoSelfLoops(edges, one);
    }
  }

  function Weight(net: Net, one: Id, other: Id): real {
    match Lookup(net.adjacency, one, other)
    case None => 0.0
    case Some(weight) => weight
  }

  predicate Labelled(ids: seq<Id>, labels: Labels) {
    forall i :: 0 <= i < |ids| ==> ids[i] in labels
  }

  /** The weight that joins a record to those of `ids` with the community. */
  function Pull(net: Net, ids: seq<Id>, labels: Labels, one: Id, community: int): real
    requires Labelled(ids, labels)
  {
    if ids == [] then 0.0
    else (if labels[ids[0]] == community then Weight(net, one, ids[0]) else 0.0) + Pull(net, ids[1..], labels, one, community)
  }

  function Total(net: Net, labels: Labels, one: Id, community: int): real
    requires Labelled(net.ids, labels)
  {
    Pull(net, net.ids, labels, one, community)
  }

  predicate Leads(net: Net, labels: Labels, one: Id, a: int, b: int)
    requires Labelled(net.ids, labels)
  {
    Total(net, labels, one, a) > Total(net, labels, one, b) || (Total(net, labels, one, a) == Total(net, labels, one, b) && a < b)
  }

  /** The heaviest community among the record's neighbours in `ids`, the lowest of those tied. */
  function Leading(net: Net, labels: Labels, one: Id, ids: seq<Id>): Option<int>
    requires Labelled(net.ids, labels) && Labelled(ids, labels)
  {
    if ids == [] then None
    else
      var rest := Leading(net, labels, one, ids[1..]);
      if Lookup(net.adjacency, one, ids[0]).None? then rest
      else if rest.Some? && !Leads(net, labels, one, labels[ids[0]], rest.value) then rest
      else Some(labels[ids[0]])
  }

  function Visited(net: Net, labels: Labels, one: Id): Labels
    requires Labelled(net.ids, labels) && one in net.ids
  {
    match Leading(net, labels, one, net.ids)
    case None => labels
    case Some(community) =>
      if Total(net, labels, one, community) > Total(net, labels, one, labels[one]) then labels[one := community] else labels
  }

  function PassFrom(net: Net, labels: Labels, i: nat): Labels
    requires Labelled(net.ids, labels) && i <= |net.ids|
    decreases |net.ids| - i
  {
    if i == |net.ids| then labels else PassFrom(net, Visited(net, labels, net.ids[i]), i + 1)
  }

  /** The labels after at most `passes` passes, and whether the last one changed nothing. */
  function Passes(net: Net, labels: Labels, passes: nat): (Labels, bool)
    requires Labelled(net.ids, labels)
  {
    if passes == 0 then (labels, false)
    else
      LabelsStay(net, labels, 0);
      var after := PassFrom(net, labels, 0);
      if after == labels then (labels, true) else Passes(net, after, passes - 1)
  }

  lemma {:induction false} LabelsStay(net: Net, labels: Labels, i: nat)
    requires Labelled(net.ids, labels) && i <= |net.ids|
    ensures Labelled(net.ids, PassFrom(net, labels, i)) && PassFrom(net, labels, i).Keys == labels.Keys
    decreases |net.ids| - i
  {
    if i < |net.ids| {
      LabelsStay(net, Visited(net, labels, net.ids[i]), i + 1);
    }
  }

  // ----- Every switch gains weight inside the communities

  /** The total weight of the edges inside communities. */
  function Inside(net: Net, ids: seq<Id>, labels: Labels): real
    requires Labelled(ids, labels)
  {
    if ids == [] then 0.0
    else Pull(net, ids[1..], labels, ids[0], labels[ids[0]]) + Inside(net, ids[1..], labels)
  }

  lemma {:induction false} PullElsewhere(net: Net, ids: seq<Id>, labels: Labels, one: Id, community: int, moved: Id, to: int)
    requires Labelled(ids, labels) && moved !in ids
    ensures Labelled(ids, labels[moved := to])
    ensures Pull(net, ids, labels[moved := to], one, community) == Pull(net, ids, labels, one, community)
  {
    if ids != [] {
      PullElsewhere(net, ids[1..], labels, one, community, moved, to);
    }
  }

  lemma {:induction false} InsideElsewhere(net: Net, ids: seq<Id>, labels: Labels, moved: Id, to: int)
    requires Labelled(ids, labels) && moved !in ids
    ensures Labelled(ids, labels[moved := to])
    ensures Inside(net, ids, labels[moved := to]) == Inside(net, ids, labels)
  {
    if ids != [] {
      PullElsewhere(net, ids[1..], labels, ids[0], labels[ids[0]], moved, to);
      InsideElsewhere(net, ids[1..], labels, moved, to);
    }
  }

  function If(condition: bool, weight: real): real {
    if condition then weight else 0.0
  }

  /** One record's move changes another's pull by the weight between the two. */
  lemma {:induction false} PullAfterMove(net: Net, ids: seq<Id>, labels: Labels, one: Id, community: int, moved: Id, to: int)
    requires Ascending(ids) && Labelled(ids, labels) && moved in ids
    ensures Labelled(ids, labels[moved := to])
    ensures
      Pull(net, ids, labels[moved := to], one, community)
      == Pull(net, ids, labels, one, community) + If(to == community, Weight(net, one, moved)) - If(labels[moved] == community, Weight(net, one, moved))
  {
    if moved == ids[0] {
      PullElsewhere(net, ids[1..], labels, one, community, moved, to);
    } else {
      assert Ascending(ids[1..]);
      PullAfterMove(net, ids[1..], labels, one, community, moved, to);
    }
  }

  /** A move gains what joins the record to its new community and loses what joined it to the old one. */
  lemma {:induction false} MoveGains(net: Net, ids: seq<Id>, labels: Labels, moved: Id, to: int)
    requires Valid(net) && Ascending(ids) && Labelled(ids, labels) && moved in ids
    ensures Labelled(ids, labels[moved := to])
    ensures
      Inside(net, ids, labels[moved := to])
      == Inside(net, ids, labels) + Pull(net, ids, labels, moved, to) - Pull(net, ids, labels, moved, labels[moved])
  {
    var after := labels[moved := to];
    var rest := ids[1..];
    assert Ascending(rest);
    if moved == ids[0] {
      assert Lookup(net.adjacency, moved, moved).None?;
      PullElsewhere(net, rest, labels, moved, to, moved, to);
      InsideElsewhere(net, rest, labels, moved, to);
    } else {
      assert Lookup(net.adjacency, ids[0], moved) == Lookup(net.adjacency, moved, ids[0]);
      PullAfterMove(net, rest, labels, ids[0], labels[ids[0]], moved, to);
      MoveGains(net, rest, labels, moved, to);
    }
  }

  lemma SwitchGains(net: Net, labels: Labels, one: Id)
    requires Valid(net) && Labelled(net.ids, labels) && one in net.ids
    ensures
      var after := Visited(net, labels, one);
      Labelled(net.ids, after) && (after != labels ==> Inside(net, net.ids, after) > Inside(net, net.ids, labels))
  {
    var leading := Leading(net, labels, one, net.ids);
    if leading.Some? {
      MoveGains(net, net.ids, labels, one, leading.value);
    }
  }

  /** A pass gains weight inside the communities, or changes no community. */
  lemma {:induction false} PassGains(net: Net, labels: Labels, i: nat)
    requires Valid(net) && Labelled(net.ids, labels) && i <= |net.ids|
    ensures
      var after := PassFrom(net, labels, i);
      && Labelled(net.ids, after) && after.Keys == labels.Keys
      && (after == labels || Inside(net, net.ids, after) > Inside(net, net.ids, labels))
    decreases |net.ids| - i
  {
    if i < |net.ids| {
      SwitchGains(net, labels, net.ids[i]);
      PassGains(net, Visited(net, labels, net.ids[i]), i + 1);
    }
  }

  // ----- Converged means stable

  /** No record has a neighbouring community strictly heavier than its own. */
  ghost predicate Stable(net: Net, labels: Labels)
    requires Labelled(net.ids, labels)
  {
    forall one, other :: one in net.ids && Lookup(net.adjacency, one, other).Some? && other in net.ids ==>
      Total(net, labels, one, labels[other]) <= Total(net, labels, one, labels[one])
  }

  /** The leading community is a neighbour's, and no neighbour's is heavier, or as heavy and lower. */
  lemma {:induction false} LeadingLeads(net: Net, labels: Labels, one: Id, ids: seq<Id>)
    requires Labelled(net.ids, labels) && Labelled(ids, labels)
    ensures
      match Leading(net, labels, one, ids)
      case None => forall other :: other in ids ==> Lookup(net.adjacency, one, other).None?
      case Some(leading) =>
        && (exists other :: other in ids && Lookup(net.adjacency, one, other).Some? && labels[other] == leading)
        && (forall other :: other in ids && Lookup(net.adjacency, one, other).Some? ==>
              labels[other] == leading || Leads(net, labels, one, leading, labels[other]))
  {
    if ids != [] {
      LeadingLeads(net, labels, one, ids[1..]);
      var rest := Leading(net, labels, one, ids[1..]);
      if Lookup(net.adjacency, one, ids[0]).Some? {
        assert ids[0] in ids;
      }
      if rest.Some? {
        var other :| other in ids[1..] && Lookup(net.adjacency, one, other).Some? && labels[other] == rest.value;
        assert other in ids;
      }
      assert forall other :: other in ids <==> other == ids[0] || other in ids[1..];
    }
  }

  /** A neighbour of the record has the label. */
  ghost predicate NextTo(net: Net, labels: Labels, one: Id, community: int)
    requires Labelled(net.ids, labels)
  {
    exists other :: other in net.ids && Lookup(net.adjacency, one, other).Some? && labels[other] == community
  }

  /** The label the record takes: if a neighbouring one is strictly heavier than its own, the heaviest, and the lowest of
      those tied for heaviest; otherwise its own. */
  ghost predicate Takes(net: Net, labels: Labels, one: Id, taken: int)
    requires Labelled(net.ids, labels) && one in net.ids
  {
    if exists c :: NextTo(net, labels, one, c) && Total(net, labels, one, c) > Total(net, labels, one, labels[one]) then
      && NextTo(net, labels, one, taken)
      && forall c :: NextTo(net, labels, one, c) ==>
           || Total(net, labels, one, c) < Total(net, labels, one, taken)
           || (Total(net, labels, one, c) == Total(net, labels, one, taken) && taken <= c)
    else taken == labels[one]
  }

  lemma VisitTakes(net: Net, labels: Labels, one: Id)
    requires Labelled(net.ids, labels) && one in net.ids
    ensures Takes(net, labels, one, Visited(net, labels, one)[one])
    ensures Visited(net, labels, one) == labels[one := Visited(net, labels, one)[one]]
  {
    LeadingLeads(net, labels, one, net.ids);
    var leading := Leading(net, labels, one, net.ids);
    if leading.Some? {
      assert NextTo(net, labels, one, leading.value);
      forall c | NextTo(net, labels, one, c)
        ensures c == leading.value || Leads(net, labels, one, leading.value, c)
      {
        var other :| other in net.ids && Lookup(net.adjacency, one, other).Some? && labels[other] == c;
      }
    }
  }

  /** The labels after the first `i` visits of a pass. */
  function AfterVisits(net: Net, labels: Labels, i: nat): (r: Labels)
    requires Labelled(net.ids, labels) && i <= |net.ids|
    ensures r.Keys == labels.Keys
  {
    if i == 0 then labels else Visited(net, AfterVisits(net, labels, i - 1), net.ids[i - 1])
  }

  /** The visits of a pass come one after another. */
  lemma {:induction false} PassGoesOn(net: Net, labels: Labels, i: nat)
    requires Labelled(net.ids, labels) && i <= |net.ids|
    ensures PassFrom(net, labels, 0) == PassFrom(net, AfterVisits(net, labels, i), i)
  {
    if i > 0 {
      PassGoesOn(net, labels, i - 1);
    }
  }

  /** No visit changes the label of another record. */
  lemma {:induction false} VisitsChangeNoOther(net: Net, labels: Labels, i: nat, id: Id)
    requires Labelled(net.ids, labels) && i <= |net.ids| && id in labels && forall j :: 0 <= j < i ==> net.ids[j] != id
    ensures AfterVisits(net, labels, i)[id] == labels[id]
  {
    if i > 0 {
      VisitsChangeNoOther(net, labels, i - 1, id);
      VisitTakes(net, AfterVisits(net, labels, i - 1), net.ids[i - 1]);
    }
  }

  lemma {:induction false} VisitedStay(net: Net, labels: Labels, i: nat)
    requires Valid(net) && Labelled(net.ids, labels) && i <= |net.ids|
    ensures PassFrom(net, labels, i).Keys == labels.Keys
    ensures forall j :: 0 <= j < i ==> PassFrom(net, labels, i)[net.ids[j]] == labels[net.ids[j]]
    ensures forall id :: id in labels && id !in net.ids ==> PassFrom(net, labels, i)[id] == labels[id]
    decreases |net.ids| - i
  {
    LabelsStay(net, labels, i);
    if i < |net.ids| {
      VisitTakes(net, labels, net.ids[i]);
      VisitedStay(net, Visited(net, labels, net.ids[i]), i + 1);
    }
  }

  /** What the `i`-th record sees: the new labels of the records before it, and the old ones of all others. */
  ghost function SeenBy(net: Net, labels: Labels, after: Labels, i: nat): (seen: Labels)
    requires Labelled(net.ids, labels) && after.Keys == labels.Keys && i <= |net.ids|
    ensures Labelled(net.ids, seen)
  {
    map id | id in labels :: if id in net.ids[..i] then after[id] else labels[id]
  }

  /** A pass visits the records in ascending order, and each takes its label by what it sees then. */
  lemma {:induction false} PassVisitsInOrder(net: Net, labels: Labels, i: nat)
    requires Valid(net) && Labelled(net.ids, labels) && i < |net.ids|
    ensures PassFrom(net, labels, 0).Keys == labels.Keys
    ensures
      var after := PassFrom(net, labels, 0);
      Takes(net, SeenBy(net, labels, after, i), net.ids[i], after[net.ids[i]])
  {
    var (before, next) := (AfterVisits(net, labels, i), AfterVisits(net, labels, i + 1));
    LabelsStay(net, labels, 0);
    PassGoesOn(net, labels, i);
    VisitedStay(net, before, i);
    SeenIs(net, labels, PassFrom(net, labels, 0), i);
    VisitsChangeNoOther(net, labels, i, net.ids[i]);
    VisitTakes(net, before, net.ids[i]);
    NewLabelIs(net, labels, i, next);
  }

  lemma {:induction false} NewLabelIs(net: Net, labels: Labels, i: nat, next: Labels)
    requires Valid(net) && Labelled(net.ids, labels) && i < |net.ids| && next == AfterVisits(net, labels, i + 1)
    ensures PassFrom(net, labels, 0).Keys == labels.Keys && PassFrom(net, labels, 0)[net.ids[i]] == next[net.ids[i]]
  {
    PassGoesOn(net, labels, i + 1);
    VisitedStay(net, next, i + 1);
  }

  lemma {:induction false} SeenIs(net: Net, labels: Labels, after: Labels, i: nat)
    requires Valid(net) && Labelled(net.ids, labels) && after.Keys == labels.Keys && i <= |net.ids|
    requires forall j :: 0 <= j < i ==> after[net.ids[j]] == AfterVisits(net, labels, i)[net.ids[j]]
    ensures SeenBy(net, labels, after, i) == AfterVisits(net, labels, i)
  {
    forall id | id in labels
      ensures SeenBy(net, labels, after, i)[id] == AfterVisits(net, labels, i)[id]
    {
      if id in net.ids[..i] {
        var j :| 0 <= j < i && net.ids[..i][j] == id;
      } else {
        assert forall j :: 0 <= j < i ==> net.ids[..i][j] == net.ids[j];
        VisitsChangeNoOther(net, labels, i, id);
      }
    }
  }

  /** A visit changes nothing exactly when no neighbouring community is strictly heavier. */
  lemma VisitIsStable(net: Net, labels: Labels, one: Id)
    requires Labelled(net.ids, labels) && one in net.ids
    ensures
      Visited(net, labels, one) == labels
      <==> forall other :: other in net.ids && Lookup(net.adjacency, one, other).Some? ==>
             Total(net, labels, one, labels[other]) <= Total(net, labels, one, labels[one])
  {
    LeadingLeads(net, labels, one, net.ids);
    var leading := Leading(net, labels, one, net.ids);
    if leading.Some? {
      var other :| other in net.ids && Lookup(net.adjacency, one, other).Some? && labels[other] == leading.value;
      if Visited(net, labels, one) == labels {
        assert Total(net, labels, one, leading.value) <= Total(net, labels, one, labels[one]);
      }
    }
  }

  /** A pass changes nothing exactly when no visit from where it stands would. */
  lemma {:induction false} PassIsStill(net: Net, labels: Labels, i: nat)
    requires Valid(net) && Labelled(net.ids, labels) && i <= |net.ids|
    ensures
      PassFrom(net, labels, i) == labels
      <==> forall k :: i <= k < |net.ids| ==> Visited(net, labels, net.ids[k]) == labels
    decreases |net.ids| - i
  {
    if i < |net.ids| {
      var visited := Visited(net, labels, net.ids[i]);
      SwitchGains(net, labels, net.ids[i]);
      PassGains(net, visited, i + 1);
      if visited == labels {
        PassIsStill(net, labels, i + 1);
      }
    }
  }

  lemma PassIsStable(net: Net, labels: Labels)
    requires Valid(net) && Labelled(net.ids, labels)
    ensures PassFrom(net, labels, 0) == labels <==> Stable(net, labels)
  {
    PassIsStill(net, labels, 0);
    forall one | one in net.ids
      ensures Visited(net, labels, one) == labels
              <==> forall other :: other in net.ids && Lookup(net.adjacency, one, other).Some? ==>
                     Total(net, labels, one, labels[other]) <= Total(net, labels, one, labels[one])
    {
      VisitIsStable(net, labels, one);
    }
  }

  /** Passes that report convergence end in a stable labelling, and stable labels stay. */
  lemma {:induction false} ConvergedIsStable(net: Net, labels: Labels, passes: nat)
    requires Valid(net) && Labelled(net.ids, labels)
    ensures
      var (after, converged) := Passes(net, labels, passes);
      && Labelled(net.ids, after) && (converged ==> Stable(net, after))
      && (passes > 0 && Stable(net, labels) ==> converged && after == labels)
  {
    if passes > 0 {
      PassIsStable(net, labels);
      PassGains(net, labels, 0);
      var after := PassFrom(net, labels, 0);
      if after != labels {
        ConvergedIsStable(net, after, passes - 1);
      }
    }
  }

  /** So many passes one after another, whether or not they still change anything. */
  function Iterated(net: Net, labels: Labels, passes: nat): (r: Labels)
    requires Labelled(net.ids, labels)
    ensures r.Keys == labels.Keys
  {
    if passes == 0 then labels
    else
      LabelsStay(net, Iterated(net, labels, passes - 1), 0);
      PassFrom(net, Iterated(net, labels, passes - 1), 0)
  }

  /** The pass after the first `k` changes no label. */
  ghost predicate SettlesAt(net: Net, labels: Labels, k: nat)
    requires Labelled(net.ids, labels)
  {
    Iterated(net, labels, k + 1) == Iterated(net, labels, k)
  }

  /** One of the passes changes no label. */
  ghost predicate SettlesWithin(net: Net, labels: Labels, passes: nat)
    requires Labelled(net.ids, labels)
  {
    exists k :: 0 <= k < passes && SettlesAt(net, labels, k)
  }

  lemma {:induction false} IteratedFirst(net: Net, labels: Labels, next: Labels, passes: nat)
    requires Labelled(net.ids, labels) && Labelled(net.ids, next) && next == PassFrom(net, labels, 0)
    ensures Iterated(net, labels, passes + 1) == Iterated(net, next, passes)
  {
    if passes > 0 {
      IteratedFirst(net, labels, next, passes - 1);
    } else {
      assert Iterated(net, labels, 0) == labels;
    }
  }

  lemma {:induction false} IteratedStays(net: Net, labels: Labels, passes: nat)
    requires Labelled(net.ids, labels) && PassFrom(net, labels, 0) == labels
    ensures Iterated(net, labels, passes) == labels
  {
    if passes > 0 {
      IteratedStays(net, labels, passes - 1);
    }
  }

  /** Stopping at the first pass that changes nothing gives what all the passes would, and reports whether there was one. */
  lemma {:induction false} PassesAreIterated(net: Net, labels: Labels, passes: nat)
    requires Labelled(net.ids, labels)
    ensures Passes(net, labels, passes).0 == Iterated(net, labels, passes)
    ensures Passes(net, labels, passes).1 <==> SettlesWithin(net, labels, passes)
  {
    if passes > 0 {
      LabelsStay(net, labels, 0);
      var after := PassFrom(net, labels, 0);
      if after == labels {
        IteratedStays(net, labels, passes);
        SettlesFirst(net, labels);
      } else {
        PassesAreIterated(net, after, passes - 1);
        IteratedFirst(net, labels, after, passes - 1);
        SettlesLater(net, labels, after, passes);
      }
    }
  }

  lemma {:induction false} SettlesFirst(net: Net, labels: Labels)
    requires Labelled(net.ids, labels)
    ensures SettlesAt(net, labels, 0) <==> PassFrom(net, labels, 0) == labels
  {
    assert Iterated(net, labels, 0) == labels;
    assert Iterated(net, labels, 1) == PassFrom(net, labels, 0);
  }

  lemma {:induction false} SettlesNext(net: Net, labels: Labels, next: Labels, k: nat)
    requires Labelled(net.ids, labels) && Labelled(net.ids, next) && next == PassFrom(net, labels, 0)
    ensures SettlesAt(net, labels, k + 1) <==> SettlesAt(net, next, k)
  {
    IteratedFirst(net, labels, next, k);
    IteratedFirst(net, labels, next, k + 1);
  }

  lemma {:induction false} SettlesLater(net: Net, labels: Labels, next: Labels, passes: nat)
    requires Labelled(net.ids, labels) && Labelled(net.ids, next) && next == PassFrom(net, labels, 0) != labels && passes > 0
    ensures SettlesWithin(net, labels, passes) <==> SettlesWithin(net, next, passes - 1)
  {
    SettlesFirst(net, labels);
    if SettlesWithin(net, labels, passes) {
      var k :| 0 <= k < passes && SettlesAt(net, labels, k);
      SettlesNext(net, labels, next, k - 1);
    }
    if SettlesWithin(net, next, passes - 1) {
      var k :| 0 <= k < passes - 1 && SettlesAt(net, next, k);
      SettlesNext(net, labels, next, k);
    }
  }

  // ----- Enough passes always converge

  ghost predicate InRange(ids: seq<Id>, labels: Labels, count: nat) {
    labels.Keys == (set id | id in ids) && forall id :: id in labels ==> 0 <= labels[id] < count
  }

  /** Every labelling of the records with the labels below `count`. */
  ghost function Labellings(ids: seq<Id>, count: nat): set<Labels> {
    if ids == [] then {map[]}
    else Extended(Labellings(ids[1..], count), ids[0], count)
  }

  ghost function Extended(all: set<Labels>, id: Id, count: nat): set<Labels> {
    if count == 0 then {} else Extended(all, id, count - 1) + Updated(all, id, count - 1)
  }

  lemma {:induction false} InExtended(all: set<Labels>, id: Id, count: nat, labels: Labels, c: nat)
    requires labels in all && c < count
    ensures labels[id := c] in Extended(all, id, count)
  {
    if c < count - 1 {
      InExtended(all, id, count - 1, labels, c);
    }
  }

  lemma {:induction false} EveryLabellingIsThere(ids: seq<Id>, labels: Labels, count: nat)
    requires Ascending(ids) && InRange(ids, labels, count)
    ensures labels in Labellings(ids, count)
  {
    if ids == [] {
      assert labels.Keys == {};
      assert labels == map[];
    } else {
      var rest := labels - {ids[0]};
      assert Ascending(ids[1..]);
      assert ids[0] in ids && ids[0] !in ids[1..];
      assert forall id :: id in ids <==> id == ids[0] || id in ids[1..];
      assert InRange(ids[1..], rest, count);
      EveryLabellingIsThere(ids[1..], rest, count);
      InExtended(Labellings(ids[1..], count), ids[0], count, rest, labels[ids[0]]);
      assert rest[ids[0] := labels[ids[0]]] == labels;
    }
  }

  function Power(base: nat, exponent: nat): nat {
    if exponent == 0 then 1 else Power(base, exponent - 1) * base
  }

  ghost function Updated(all: set<Labels>, id: Id, c: int): set<Labels> {
    set labels | labels in all :: labels[id := c]
  }

  lemma {:induction false} UpdatedAreNoMore(all: set<Labels>, id: Id, c: int)
    ensures |Updated(all, id, c)| <= |all|
  {
    if all == {} {
      assert Updated(all, id, c) == {};
    } else {
      var one :| one in all;
      var rest := all - {one};
      UpdatedAreNoMore(rest, id, c);
      forall x | x in Updated(all, id, c)
        ensures x in Updated(rest, id, c) + {one[id := c]}
      {
        var labels :| labels in all && x == labels[id := c];
        assert labels == one || labels in rest;
      }
      SubsetIsSmaller(Updated(all, id, c), Updated(rest, id, c) + {one[id := c]});
    }
  }

  lemma {:induction false} ExtendedAreNoMore(all: set<Labels>, id: Id, count: nat)
    ensures |Extended(all, id, count)| <= |all| * count
  {
    if count > 0 {
      ExtendedAreNoMore(all, id, count - 1);
      UpdatedAreNoMore(all, id, count - 1);
      UnionIsNoMore(Extended(all, id, count - 1), Updated(all, id, count - 1));
      OneTimesMore(|all|, count - 1);
    }
  }

  lemma UnionIsNoMore(a: set<Labels>, b: set<Labels>)
    ensures |a + b| <= |a| + |b|
  {
  }

  lemma OneTimesMore(a: nat, b: nat)
    ensures a * b + a == a * (b + 1)
  {
  }

  lemma {:induction false} LabellingsAreNoMore(ids: seq<Id>, count: nat)
    ensures |Labellings(ids, count)| <= Power(count, |ids|)
  {
    if ids != [] {
      LabellingsAreNoMore(ids[1..], count);
      ExtendedAreNoMore(Labellings(ids[1..], count), ids[0], count);
      TimesIsMonotone(|Labellings(ids[1..], count)|, Power(count, |ids| - 1), count);
    }
  }

  lemma TimesIsMonotone(a: nat, b: nat, c: nat)
    requires a <= b
    ensures a * c <= b * c
  {
  }

  lemma VisitStaysInRange(net: Net, labels: Labels, one: Id, count: nat)
    requires Labelled(net.ids, labels) && one in net.ids && InRange(net.ids, labels, count)
    ensures InRange(net.ids, Visited(net, labels, one), count)
  {
    LeadingLeads(net, labels, one, net.ids);
  }

  lemma {:induction false} PassStaysInRange(net: Net, labels: Labels, i: nat, count: nat)
    requires Labelled(net.ids, labels) && i <= |net.ids| && InRange(net.ids, labels, count)
    ensures InRange(net.ids, PassFrom(net, labels, i), count)
    decreases |net.ids| - i
  {
    if i < |net.ids| {
      VisitStaysInRange(net, labels, net.ids[i], count);
      PassStaysInRange(net, Visited(net, labels, net.ids[i]), i + 1, count);
    }
  }

  /** The labellings with more weight inside communities. */
  ghost function Higher(net: Net, labels: Labels, count: nat): set<Labels>
    requires Labelled(net.ids, labels)
  {
    set more | more in Labellings(net.ids, count) && Labelled(net.ids, more)
               && Inside(net, net.ids, more) > Inside(net, net.ids, labels)
  }

  lemma SmallerSet(a: set<Labels>, b: set<Labels>, x: Labels)
    requires a <= b && x in b && x !in a
    ensures |a| < |b|
  {
    assert a <= b - {x};
    SubsetIsSmaller(a, b - {x});
  }

  lemma {:induction false} SubsetIsSmaller(a: set<Labels>, b: set<Labels>)
    requires a <= b
    ensures |a| <= |b|
  {
    if a != {} {
      var x :| x in a;
      SubsetIsSmaller(a - {x}, b - {x});
    }
  }

  lemma HigherAreFewer(net: Net, labels: Labels, after: Labels, count: nat)
    requires Valid(net) && Labelled(net.ids, labels) && Labelled(net.ids, after) && InRange(net.ids, after, count)
    requires Inside(net, net.ids, after) > Inside(net, net.ids, labels)
    ensures |Higher(net, after, count)| < |Higher(net, labels, count)|
  {
    EveryLabellingIsThere(net.ids, after, count);
    SmallerSet(Higher(net, after, count), Higher(net, labels, count), after);
  }

  /** No labelling comes back, so a run with more passes than there are heavier labellings converges. */
  lemma {:induction false} NoLabellingComesBack(net: Net, labels: Labels, count: nat, passes: nat)
    requires Valid(net) && Labelled(net.ids, labels) && InRange(net.ids, labels, count)
    requires passes > |Higher(net, labels, count)|
    ensures Passes(net, labels, passes).1
    decreases passes
  {
    var after := PassFrom(net, labels, 0);
    PassGains(net, labels, 0);
    if after != labels {
      PassStaysInRange(net, labels, 0, count);
      HigherAreFewer(net, labels, after, count);
      NoLabellingComesBack(net, after, count, passes - 1);
    }
  }

  /** As many passes as there are labellings always converge. */
  lemma EnoughPassesConverge(net: Net, labels: Labels, count: nat, passes: nat)
    requires Valid(net) && Labelled(net.ids, labels) && InRange(net.ids, labels, count)
    requires passes >= Power(count, |net.ids|)
    ensures Passes(net, labels, passes).1
  {
    EveryLabellingIsThere(net.ids, labels, count);
    LabellingsAreNoMore(net.ids, count);
    SmallerSet(Higher(net, labels, count), Labellings(net.ids, count), labels);
    NoLabellingComesBack(net, labels, count, passes);
  }

  // ----- The communities of a graph

  /** Each record starts with its index in order. */
  function Initial(ids: seq<Id>): Labels {
    if ids == [] then map[] else Initial(ids[..|ids| - 1])[ids[|ids| - 1] := |ids| - 1]
  }

  lemma {:induction false} InitialIsInRange(ids: seq<Id>)
    requires Ascending(ids)
    ensures Labelled(ids, Initial(ids)) && InRange(ids, Initial(ids), |ids|)
    ensures forall i :: 0 <= i < |ids| ==> Initial(ids)[ids[i]] == i
  {
    if ids != [] {
      var (before, last) := (ids[..|ids| - 1], ids[|ids| - 1]);
      InitialIsInRange(before);
      OneMoreLabel(before, last, ids, Initial(before));
    }
  }

  lemma OneMoreLabel(before: seq<Id>, last: Id, ids: seq<Id>, labels: Labels)
    requires ids == before + [last] && last !in before
    requires Labelled(before, labels) && InRange(before, labels, |before|)
    requires forall i :: 0 <= i < |before| ==> labels[before[i]] == i
    ensures
      var more := labels[last := |before|];
      && Labelled(ids, more) && InRange(ids, more, |ids|)
      && forall i :: 0 <= i < |ids| ==> more[ids[i]] == i
  {
  }

  /** The labels of the first `n` records, numbered by their first records. */
  function Numbers(ids: seq<Id>, labels: Labels, n: nat): map<int, int>
    requires Labelled(ids, labels) && n <= |ids|
  {
    if n == 0 then map[]
    else
      var (before, last) := (Numbers(ids, labels, n - 1), labels[ids[n - 1]]);
      if last in before then before else before[last := |before|]
  }

  /** One of the first `n` records has the label. */
  ghost predicate HasMember(ids: seq<Id>, labels: Labels, n: nat, c: int)
    requires Labelled(ids, labels) && n <= |ids|
  {
    exists i :: 0 <= i < n && labels[ids[i]] == c
  }

  ghost predicate Dense(numbers: map<int, int>) {
    && (forall c :: c in numbers ==> 0 <= numbers[c] < |numbers|)
    && (forall c, d :: c in numbers && d in numbers && numbers[c] == numbers[d] ==> c == d)
  }

  lemma {:induction false} NumbersAreDense(ids: seq<Id>, labels: Labels, n: nat)
    requires Labelled(ids, labels) && n <= |ids|
    ensures forall c :: c in Numbers(ids, labels, n) <==> HasMember(ids, labels, n, c)
    ensures Dense(Numbers(ids, labels, n))
  {
    if n > 0 {
      NumbersAreDense(ids, labels, n - 1);
      forall c
        ensures HasMember(ids, labels, n, c) <==> HasMember(ids, labels, n - 1, c) || c == labels[ids[n - 1]]
      {
      }
    }
  }

  /** A community numbered lower has a smaller member: the numbers go by the communities' smallest members. */
  lemma {:induction false} NumbersGoBySmallestMember(ids: seq<Id>, labels: Labels, n: nat, j: nat, c: int)
    requires Labelled(ids, labels) && n <= |ids| && j < n
    requires c in Numbers(ids, labels, n) && labels[ids[j]] in Numbers(ids, labels, n)
    requires Numbers(ids, labels, n)[c] < Numbers(ids, labels, n)[labels[ids[j]]]
    ensures HasMember(ids, labels, j, c)
  {
    NumbersAreDense(ids, labels, n - 1);
    var before := Numbers(ids, labels, n - 1);
    if j < n - 1 {
      assert HasMember(ids, labels, n - 1, labels[ids[j]]);
      NumbersGoBySmallestMember(ids, labels, n - 1, j, c);
    } else {
      assert c in before;
    }
  }

  function Renumbered(ids: seq<Id>, labels: Labels): Labels
    requires Labelled(ids, labels)
  {
    NumbersHold(ids, labels);
    map id | id in ids :: Numbers(ids, labels, |ids|)[labels[id]]
  }

  lemma NumbersHold(ids: seq<Id>, labels: Labels)
    requires Labelled(ids, labels)
    ensures forall i :: 0 <= i < |ids| ==> labels[ids[i]] in Numbers(ids, labels, |ids|)
  {
    NumbersAreDense(ids, labels, |ids|);
    forall i | 0 <= i < |ids|
      ensures labels[ids[i]] in Numbers(ids, labels, |ids|)
    {
      assert HasMember(ids, labels, |ids|, labels[ids[i]]);
    }
  }

  lemma {:induction false} PassesStayLabelled(net: Net, labels: Labels, passes: nat)
    requires Labelled(net.ids, labels)
    ensures Labelled(net.ids, Passes(net, labels, passes).0)
  {
    if passes > 0 {
      LabelsStay(net, labels, 0);
      PassesStayLabelled(net, PassFrom(net, labels, 0), passes - 1);
    }
  }

  function CommunitiesOf(nodes: seq<Id>, edges: seq<Edge>, maxIterations: nat): (Labels, bool) {
    var net := NetOf(nodes, edges);
    SortedIsAscending(nodes);
    InitialIsInRange(net.ids);
    PassesStayLabelled(net, Initial(net.ids), maxIterations);
    var (labels, converged) := Passes(net, Initial(net.ids), maxIterations);
    (Renumbered(net.ids, labels), converged)
  }

  /** The communities depend on which records and edges there are, not on their order. */
  lemma CommunitiesIgnoreOrder(nodes: seq<Id>, edges: seq<Edge>, otherNodes: seq<Id>, otherEdges: seq<Edge>, maxIterations: nat)
    requires forall id :: id in nodes <==> id in otherNodes
    requires forall e :: e in edges <==> e in otherEdges
    ensures CommunitiesOf(nodes, edges, maxIterations) == CommunitiesOf(otherNodes, otherEdges, maxIterations)
  {
    SortedIgnoresOrder(nodes, otherNodes);
    assert (set id | id in nodes) == (set id | id in otherNodes);
    AdjacencyIgnoresOrder((set id | id in nodes), edges, otherEdges);
  }

  /** With `n` records, `n` to the `n` passes are enough, and then every record is in a community it is drawn to most. */
  lemma CommunitiesConverge(nodes: seq<Id>, edges: seq<Edge>, maxIterations: nat)
    requires var n := |Sorted(nodes)|; maxIterations >= Power(n, n)
    ensures CommunitiesOf(nodes, edges, maxIterations).1
  {
    var net := NetOf(nodes, edges);
    NetOfIsValid(nodes, edges);
    InitialIsInRange(net.ids);
    EnoughPassesConverge(net, Initial(net.ids), |net.ids|, maxIterations);
  }

  lemma SameCommunity(ids: seq<Id>, labels: Labels)
    requires Labelled(ids, labels)
    ensures Labelled(ids, Renumbered(ids, labels))
    ensures forall i, j :: 0 <= i < |ids| && 0 <= j < |ids| ==>
              (Renumbered(ids, labels)[ids[i]] == Renumbered(ids, labels)[ids[j]] <==> labels[ids[i]] == labels[ids[j]])
  {
    NumbersHold(ids, labels);
    NumbersAreDense(ids, labels, |ids|);
  }

  lemma {:induction false} SamePull(net: Net, ids: seq<Id>, a: Labels, b: Labels, one: Id, c: int, d: int)
    requires Labelled(ids, a) && Labelled(ids, b)
    requires forall i :: 0 <= i < |ids| ==> (a[ids[i]] == c <==> b[ids[i]] == d)
    ensures Pull(net, ids, a, one, c) == Pull(net, ids, b, one, d)
  {
    if ids != [] {
      SamePull(net, ids[1..], a, b, one, c, d);
    }
  }

  lemma RenumberedIsStable(net: Net, labels: Labels)
    requires Labelled(net.ids, labels) && Stable(net, labels)
    ensures Labelled(net.ids, Renumbered(net.ids, labels)) && Stable(net, Renumbered(net.ids, labels))
  {
    SameCommunity(net.ids, labels);
    var numbered := Renumbered(net.ids, labels);
    forall one, other | one in net.ids && Lookup(net.adjacency, one, other).Some? && other in net.ids
      ensures Total(net, numbered, one, numbered[other]) <= Total(net, numbered, one, numbered[one])
    {
      SamePull(net, net.ids, labels, numbered, one, labels[other], numbered[other]);
      SamePull(net, net.ids, labels, numbered, one, labels[one], numbered[one]);
      assert Total(net, labels, one, labels[other]) <= Total(net, labels, one, labels[one]);
    }
  }

  /** Communities reported as converged leave no record with a strictly heavier neighbouring community. */
  lemma ConvergedCommunitiesAreStable(nodes: seq<Id>, edges: seq<Edge>, maxIterations: nat)
    requires CommunitiesOf(nodes, edges, maxIterations).1
    ensures Labelled(NetOf(nodes, edges).ids, CommunitiesOf(nodes, edges, maxIterations).0)
    ensures Stable(NetOf(nodes, edges), CommunitiesOf(nodes, edges, maxIterations).0)
  {
    var net := NetOf(nodes, edges);
    NetOfIsValid(nodes, edges);
    InitialIsInRange(net.ids);
    ConvergedIsStable(net, Initial(net.ids), maxIterations);
    RenumberedIsStable(net, Passes(net, Initial(net.ids), maxIterations).0);
  }
}
