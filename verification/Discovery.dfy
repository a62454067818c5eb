/** Growing a discovery graph around a seed (search/graph.py). */
module Discovery {
  import opened Communities
  import opened EdgeSelection

  // ----- Nearest neighbours

  predicate Nearer(a: Near, b: Near) {
    a.weight > b.weight || (a.weight == b.weight && a.id < b.id)
  }

  ghost predicate Ranked(list: seq<Near>) {
    forall i, j :: 0 <= i < j < |list| ==> Nearer(list[i], list[j])
  }

  function Placed(list: seq<Near>, near: Near): seq<Near> {
    if list == [] || Nearer(near, list[0]) then [near] + list else [list[0]] + Placed(list[1..], near)
  }

  function Without(list: seq<Near>, id: Id): seq<Near> {
    if list == [] then [] else (if list[0].id == id then [] else [list[0]]) + Without(list[1..], id)
  }

  function WeightOf(list: seq<Near>, id: Id): Option<real> {
    if list == [] then None else if list[0].id == id then Some(list[0].weight) else WeightOf(list[1..], id)
  }

  /** Keeps the heaviest weight of a repeated neighbour, nearest first. */
  function Improved(list: seq<Near>, near: Near): seq<Near> {
    Placed(Without(list, near.id), Near(near.id, Heavier(WeightOf(list, near.id), near.weight)))
  }

  /** The distinct neighbours with their heaviest weights, nearest first, leaving out those `skip` names. */
  function Nearest(neighbours: seq<Near>, skip: Near -> bool): seq<Near> {
    if neighbours == [] then []
    else
      var (before, last) := (Nearest(neighbours[..|neighbours| - 1], skip), neighbours[|neighbours| - 1]);
      if skip(last) then before else Improved(before, last)
  }

  lemma {:induction false} PlacedIsRanked(list: seq<Near>, near: Near)
    requires Ranked(list) && !Mentions(list, near.id)
    ensures Ranked(Placed(list, near))
    ensures forall x :: x in Placed(list, near) <==> x in list || x == near
  {
    if list != [] && !Nearer(near, list[0]) {
      assert list[0].id != near.id;
      assert Ranked(list[1..]);
      assert forall i :: 0 <= i < |list[1..]| ==> list[1..][i] == list[i + 1];
      PlacedIsRanked(list[1..], near);
      var rest := Placed(list[1..], near);
      forall j | 0 <= j < |rest|
        ensures Nearer(list[0], rest[j])
      {
        assert rest[j] in rest;
      }
    }
  }

  lemma {:induction false} WithoutIsRanked(list: seq<Near>, id: Id)
    requires Ranked(list)
    ensures Ranked(Without(list, id)) && !Mentions(Without(list, id), id)
    ensures forall x :: x in Without(list, id) <==> x in list && x.id != id
  {
    if list != [] {
      assert Ranked(list[1..]);
      WithoutIsRanked(list[1..], id);
      var rest := Without(list[1..], id);
      forall j | 0 <= j < |rest|
        ensures Nearer(list[0], rest[j])
      {
        assert rest[j] in rest;
      }
      assert forall x :: x in list <==> x == list[0] || x in list[1..];
    }
  }

  lemma {:induction false} WeightOfIs(list: seq<Near>, id: Id)
    ensures
      match WeightOf(list, id)
      case None => !Mentions(list, id)
      case Some(weight) => Near(id, weight) in list
  {
    if list != [] {
      WeightOfIs(list[1..], id);
      if WeightOf(list, id) == None {
        assert forall i :: 1 <= i < |list| ==> list[i] == list[1..][i - 1];
      }
    }
  }

  /** The neighbour is on the list, wanted, with its heaviest weight. */
  ghost predicate Heads(neighbours: seq<Near>, skip: Near -> bool, near: Near) {
    && near in neighbours && !skip(near)
    && forall x :: x in neighbours && !skip(x) && x.id == near.id ==> x.weight <= near.weight
  }

  ghost predicate IsNearest(neighbours: seq<Near>, skip: Near -> bool, list: seq<Near>) {
    Ranked(list) && forall near :: near in list <==> Heads(neighbours, skip, near)
  }

  lemma ImprovedIsNearest(before: seq<Near>, last: Near, skip: Near -> bool, list: seq<Near>)
    requires IsNearest(before, skip, list) && !skip(last)
    ensures IsNearest(before + [last], skip, Improved(list, last))
  {
    var kept := Without(list, last.id);
    var best := Near(last.id, Heavier(WeightOf(list, last.id), last.weight));
    WithoutIsRanked(list, last.id);
    PlacedIsRanked(kept, best);
    WeightOfIs(list, last.id);
    assert forall x :: x in before + [last] <==> x in before || x == last;
    forall near
      ensures near in Improved(list, last) <==> Heads(before + [last], skip, near)
    {
      if near.id != last.id {
        assert Heads(before + [last], skip, near) <==> Heads(before, skip, near);
      } else {
        SameNeighbour(before, last, skip, list, near);
      }
    }
  }

  lemma SameNeighbour(before: seq<Near>, last: Near, skip: Near -> bool, list: seq<Near>, near: Near)
    requires IsNearest(before, skip, list) && !skip(last) && near.id == last.id
    ensures near.weight == Heavier(WeightOf(list, last.id), last.weight) <==> Heads(before + [last], skip, near)
  {
    WeightOfIs(list, last.id);
    assert forall x :: x in before + [last] <==> x in before || x == last;
    match WeightOf(list, last.id)
    case None =>
      forall x | x in before && x.id == last.id
        ensures skip(x)
      {
        if !skip(x) {
          WantedIsListed(before, skip, list, x);
        }
      }
    case Some(weight) =>
      assert Heads(before, skip, Near(last.id, weight));
  }

  /** Every wanted neighbour has an entry. */
  lemma WantedIsListed(neighbours: seq<Near>, skip: Near -> bool, list: seq<Near>, x: Near)
    requires IsNearest(neighbours, skip, list) && x in neighbours && !skip(x)
    ensures Mentions(list, x.id)
  {
    var top := TopOf(neighbours, skip, x);
    assert top in list;
  }

  lemma {:induction false} TopOf(neighbours: seq<Near>, skip: Near -> bool, x: Near) returns (top: Near)
    requires x in neighbours && !skip(x)
    ensures top.id == x.id && Heads(neighbours, skip, top)
  {
    var (before, last) := (neighbours[..|neighbours| - 1], neighbours[|neighbours| - 1]);
    assert forall y :: y in neighbours <==> y in before || y == last;
    if x in before {
      top := TopOf(before, skip, x);
      if last.id == x.id && !skip(last) && last.weight > top.weight {
        top := last;
      }
    } else {
      top := last;
      if y :| y in before && y.id == x.id && !skip(y) && y.weight > x.weight {
        top := TopOf(before, skip, y);
      }
    }
  }

  lemma {:induction false} NearestIs(neighbours: seq<Near>, skip: Near -> bool)
    ensures IsNearest(neighbours, skip, Nearest(neighbours, skip))
  {
    if neighbours != [] {
      var (before, last) := (neighbours[..|neighbours| - 1], neighbours[|neighbours| - 1]);
      NearestIs(before, skip);
      assert neighbours == before + [last];
      if skip(last) {
        forall near
          ensures Heads(neighbours, skip, near) <==> Heads(before, skip, near)
        {
        }
      } else {
        ImprovedIsNearest(before, last, skip, Nearest(before, skip));
      }
    }
  }

  /** Nearest first is heaviest first, and among neighbours of one weight the one with the lower id. */
  lemma {:induction false} NearestComeFirst(neighbours: seq<Near>, skip: Near -> bool, i: nat, j: nat)
    requires i < j < |Nearest(neighbours, skip)|
    ensures
      var (near, further) := (Nearest(neighbours, skip)[i], Nearest(neighbours, skip)[j]);
      near.weight > further.weight || (near.weight == further.weight && near.id < further.id)
  {
    NearestIs(neighbours, skip);
  }

  /** A record's neighbour list: itself left out, cut to the fanout. */
  function Cleaned(id: Id, neighbours: seq<Near>, fanout: nat): seq<Near> {
    var all := Nearest(neighbours, (near: Near) => near.id == id);
    if |all| <= fanout then all else all[..fanout]
  }

  /** The list holds nearest neighbours of the record, each once, and is cut only when full of nearer ones. */
  lemma CleanedAreNearest(id: Id, neighbours: seq<Near>, fanout: nat, near: Near)
    requires Heads(neighbours, (near: Near) => near.id == id, near)
    ensures
      var list := Cleaned(id, neighbours, fanout);
      && Ranked(list) && |list| <= fanout && !Mentions(list, id)
      && (near in list || (|list| == fanout && forall x :: x in list ==> Nearer(x, near)))
  {
    var skip := (near: Near) => near.id == id;
    NearestIs(neighbours, skip);
    var all := Nearest(neighbours, skip);
    var list := Cleaned(id, neighbours, fanout);
    assert forall x :: x in list ==> x in all;
    forall i | 0 <= i < |list|
      ensures list[i].id != id
    {
      assert all[i] in all && Heads(neighbours, skip, all[i]);
    }
    if near !in list {
      var k :| 0 <= k < |all| && all[k] == near;
      forall x | x in list
        ensures Nearer(x, near)
      {
        var i :| 0 <= i < |list| && list[i] == x;
        assert all[i] == x;
      }
    }
  }

  // ----- Reachable records

  predicate Touches(e: Edge, one: Id, other: Id) {
    (e.source == one && e.target == other) || (e.source == other && e.target == one)
  }

  ghost predicate Adjacent(edges: seq<Edge>, one: Id, other: Id) {
    exists e :: e in edges && Touches(e, one, other)
  }

  ghost predicate ReachesIn(edges: seq<Edge>, seed: Id, id: Id, steps: nat)
    decreases steps
  {
    if steps == 0 then id == seed
    else exists via :: ReachesIn(edges, seed, via, steps - 1) && Adjacent(edges, via, id)
  }

  ghost predicate Reaches(edges: seq<Edge>, seed: Id, id: Id) {
    exists steps: nat :: ReachesIn(edges, seed, id, steps)
  }

  function OtherEnds(e: Edge, id: Id): (ends: seq<Id>)
    ensures forall other :: other in ends <==> Touches(e, id, other)
  {
    if e.source == id && e.target == id then [id]
    else if e.source == id then [e.target]
    else if e.target == id then [e.source]
    else []
  }

  function AdjacentTo(edges: seq<Edge>, id: Id): seq<Id> {
    if edges == [] then [] else OtherEnds(edges[0], id) + AdjacentTo(edges[1..], id)
  }

  lemma {:induction false} AdjacentToIs(edges: seq<Edge>, one: Id, other: Id)
    ensures other in AdjacentTo(edges, one) <==> Adjacent(edges, one, other)
  {
    if edges != [] {
      AdjacentToIs(edges[1..], one, other);
      assert forall e :: e in edges <==> e == edges[0] || e in edges[1..];
    }
  }

  lemma OneStepFurther(edges: seq<Edge>, seed: Id, via: Id, id: Id)
    requires Reaches(edges, seed, via) && Adjacent(edges, via, id)
    ensures Reaches(edges, seed, id)
  {
    var steps: nat :| ReachesIn(edges, seed, via, steps);
    assert ReachesIn(edges, seed, id, steps + 1);
  }

  ghost predicate ClosedAt(edges: seq<Edge>, reached: set<Id>, id: Id) {
    forall other :: Adjacent(edges, id, other) ==> other in reached
  }

  lemma {:induction false} ClosedHoldsReachable(edges: seq<Edge>, reached: set<Id>, seed: Id, id: Id, steps: nat)
    requires seed in reached && forall one :: one in reached ==> ClosedAt(edges, reached, one)
    requires ReachesIn(edges, seed, id, steps)
    ensures id in reached
    decreases steps
  {
    if steps > 0 {
      var via :| ReachesIn(edges, seed, via, steps - 1) && Adjacent(edges, via, id);
      ClosedHoldsReachable(edges, reached, seed, via, steps - 1);
    }
  }

  function Ends(edges: seq<Edge>): set<Id> {
    (set e | e in edges :: e.source) + set e | e in edges :: e.target
  }

  /** The records the edges connect to the seed. */
  method Connected(seed: Id, edges: seq<Edge>) returns (reached: set<Id>)
    ensures forall id :: id in reached <==> Reaches(edges, seed, id)
  {
    reached := {seed};
    var pending := [seed];
    assert ReachesIn(edges, seed, seed, 0);
    while pending != []
      invariant seed in reached && reached <= Ends(edges) + {seed}
      invariant forall id :: id in reached ==> Reaches(edges, seed, id)
      invariant forall id :: id in reached ==> id in pending || ClosedAt(edges, reached, id)
      invariant forall id :: id in pending ==> id in reached
      decreases Ends(edges) + {seed} - reached, |pending|
    {
      var last := |pending| - 1;
      var id := pending[last];
      reached, pending := Reach(seed, edges, id, reached, pending[..last], pending);
    }
    forall id | Reaches(edges, seed, id)
      ensures id in reached
    {
      var steps: nat :| ReachesIn(edges, seed, id, steps);
      ClosedHoldsReachable(edges, reached, seed, id, steps);
    }
  }

  /** Adds the neighbours of one reached record, and queues those that are new. */
  method Reach(seed: Id, edges: seq<Edge>, id: Id, reached: set<Id>, pending: seq<Id>, ghost before: seq<Id>)
    returns (more: set<Id>, queue: seq<Id>)
    requires id in reached && Reaches(edges, seed, id) && reached <= Ends(edges) + {seed}
    requires before == pending + [id]
    requires forall x :: x in reached ==> Reaches(edges, seed, x)
    requires forall x :: x in reached ==> x in before || ClosedAt(edges, reached, x)
    requires forall x :: x in before ==> x in reached
    ensures reached <= more <= Ends(edges) + {seed}
    ensures forall x :: x in more ==> Reaches(edges, seed, x)
    ensures forall x :: x in more ==> x in queue || ClosedAt(edges, more, x)
    ensures forall x :: x in queue ==> x in more
    ensures more == reached ==> queue == pending
  {
    more, queue := reached, pending;
    var neighbours := AdjacentTo(edges, id);
    for i := 0 to |neighbours|
      invariant reached <= more <= Ends(edges) + {seed}
      invariant forall x :: x in more ==> Reaches(edges, seed, x)
      invariant forall x :: x in more ==> x in queue || x == id || ClosedAt(edges, more, x)
      invariant forall x :: x in queue ==> x in more
      invariant forall k :: 0 <= k < i ==> neighbours[k] in more
      invariant more == reached ==> queue == pending
    {
      var neighbour := neighbours[i];
      if neighbour !in more {
        AdjacentToIs(edges, id, neighbour);
        assert neighbour in neighbours;
        OneStepFurther(edges, seed, id, neighbour);
        EndsOf(edges, id, neighbour);
        more, queue := more + {neighbour}, queue + [neighbour];
      }
    }
    forall other | Adjacent(edges, id, other)
      ensures other in more
    {
      AdjacentToIs(edges, id, other);
    }
  }

  lemma EndsOf(edges: seq<Edge>, one: Id, other: Id)
    requires Adjacent(edges, one, other)
    ensures other in Ends(edges)
  {
  }
}
