/** Building a discovery graph (search/graph.py). */
module DiscoveryGraph {
  import opened Communities
  import opened EdgeSelection
  import opened Discovery
  import LabelPropagation

  datatype Source = Source(kind: Kind, neighbours: Id -> seq<Near>)

  datatype Params = Params(depth: nat, fanout: nat, minWeight: real, maxNodes: nat, mutualOnly: bool, maxIterations: nat)

  /** What `GraphParams` accepts. */
  predicate Allowed(params: Params) {
    params.fanout >= 1 && params.maxNodes >= 1 && params.maxIterations >= 1
  }

  // ----- What the sources say of a record

  function ListFrom(source: Source, id: Id, fanout: nat): seq<Near> {
    Cleaned(id, source.neighbours(id), fanout)
  }

  function ListsFrom(sources: seq<Source>, id: Id, fanout: nat): seq<Near> {
    if sources == [] then []
    else ListsFrom(sources[..|sources| - 1], id, fanout) + ListFrom(sources[|sources| - 1], id, fanout)
  }

  /** The neighbours a record expands to, nearest first. */
  function Drawn(sources: seq<Source>, params: Params, id: Id): seq<Near> {
    Nearest(ListsFrom(sources, id, params.fanout), (near: Near) => near.weight < params.minWeight)
  }

  /** Some source's cleaned list of the record holds the neighbour. */
  ghost predicate IsListed(sources: seq<Source>, id: Id, fanout: nat, near: Near) {
    exists source :: source in sources && near in Cleaned(id, source.neighbours(id), fanout)
  }

  lemma {:induction false} ListsFromAre(sources: seq<Source>, id: Id, fanout: nat, near: Near)
    ensures near in ListsFrom(sources, id, fanout) <==> IsListed(sources, id, fanout, near)
  {
    if sources != [] {
      var (before, last) := (sources[..|sources| - 1], sources[|sources| - 1]);
      ListsFromAre(before, id, fanout, near);
      ListedOneMore(before, last, sources, id, fanout, near);
    }
  }

  lemma {:induction false} ListedOneMore(before: seq<Source>, last: Source, sources: seq<Source>, id: Id, fanout: nat, near: Near)
    requires sources == before + [last]
    ensures IsListed(sources, id, fanout, near)
            <==> IsListed(before, id, fanout, near) || near in Cleaned(id, last.neighbours(id), fanout)
  {
    assert forall source :: source in sources <==> source in before || source == last;
  }

  /** A source lists the neighbour, near enough, and none lists it with more weight. */
  ghost predicate IsDrawn(sources: seq<Source>, params: Params, id: Id, near: Near) {
    && near.weight >= params.minWeight && IsListed(sources, id, params.fanout, near)
    && forall x :: IsListed(sources, id, params.fanout, x) && x.id == near.id ==> x.weight <= near.weight
  }

  /** A record expands to the neighbours any source lists for it, each with its heaviest weight, if that is enough, nearest first. */
  lemma {:induction false} DrawnAre(sources: seq<Source>, params: Params, id: Id, near: Near)
    ensures Discovery.Ranked(Drawn(sources, params, id))
    ensures near in Drawn(sources, params, id) <==> IsDrawn(sources, params, id, near)
  {
    var all := ListsFrom(sources, id, params.fanout);
    var skip := (near: Near) => near.weight < params.minWeight;
    NearestIs(all, skip);
    forall x
      ensures x in all <==> IsListed(sources, id, params.fanout, x)
    {
      ListsFromAre(sources, id, params.fanout, x);
    }
    assert near in Drawn(sources, params, id) <==> Heads(all, skip, near);
  }

  // ----- The lists fetched so far

  ghost predicate Fetches(source: Source, fanout: nat, rows: seq<Row>) {
    && (forall i :: 0 <= i < |rows| ==> rows[i].list == ListFrom(source, rows[i].id, fanout))
    && (forall i, j :: 0 <= i < j < |rows| ==> rows[i].id != rows[j].id)
  }

  predicate HasRow(rows: seq<Row>, id: Id) {
    exists i :: 0 <= i < |rows| && rows[i].id == id
  }

  /** Every source's lists, each record's fetched once. */
  ghost predicate Remembers(sources: seq<Source>, fanout: nat, memo: seq<seq<Row>>) {
    |memo| == |sources| && forall s :: 0 <= s < |memo| ==> Fetches(sources[s], fanout, memo[s])
  }

  ghost predicate HasAll(memo: seq<seq<Row>>, ids: seq<Id>) {
    forall s, i :: 0 <= s < |memo| && 0 <= i < |ids| ==> HasRow(memo[s], ids[i])
  }

  lemma {:induction false} FetchedList(source: Source, fanout: nat, rows: seq<Row>, id: Id)
    requires Fetches(source, fanout, rows) && HasRow(rows, id)
    ensures ListOf(rows, id) == ListFrom(source, id, fanout)
  {
    if rows[0].id != id {
      var i :| 0 <= i < |rows| && rows[i].id == id;
      assert rows[1..][i - 1].id == id;
      FetchedList(source, fanout, rows[1..], id);
    }
  }

  /** Fetches one source's lists for the records it was not asked for yet. */
  method FetchSource(source: Source, fanout: nat, rows: seq<Row>, ids: seq<Id>) returns (more: seq<Row>)
    requires Fetches(source, fanout, rows)
    ensures Fetches(source, fanout, more) && rows <= more
    ensures forall i :: 0 <= i < |ids| ==> HasRow(more, ids[i])
    ensures forall k :: |rows| <= k < |more| ==> more[k].id in ids
  {
    more := rows;
    for i := 0 to |ids|
      invariant Fetches(source, fanout, more) && rows <= more
      invariant forall j :: 0 <= j < i ==> HasRow(more, ids[j])
      invariant forall k :: |rows| <= k < |more| ==> more[k].id in ids
    {
      if !HasRow(more, ids[i]) {
        var before := more;
        more := more + [Row(ids[i], ListFrom(source, ids[i], fanout))];
        assert more[|before|].id == ids[i];
        forall id | HasRow(before, id)
          ensures HasRow(more, id)
        {
          var k :| 0 <= k < |before| && before[k].id == id;
          assert more[k].id == id;
        }
      }
    }
  }

  method Fetch(sources: seq<Source>, fanout: nat, memo: seq<seq<Row>>, ids: seq<Id>) returns (more: seq<seq<Row>>)
    requires Remembers(sources, fanout, memo)
    ensures Remembers(sources, fanout, more) && HasAll(more, ids)
  {
    more := [];
    for s := 0 to |sources|
      invariant |more| == s && forall t :: 0 <= t < s ==> Fetches(sources[t], fanout, more[t])
      invariant forall t, i :: 0 <= t < s && 0 <= i < |ids| ==> HasRow(more[t], ids[i])
    {
      var rows := FetchSource(sources[s], fanout, memo[s], ids);
      more := more + [rows];
    }
  }

  /** The neighbours the fetched lists draw a record to. */
  method Expansion(ghost sources: seq<Source>, params: Params, memo: seq<seq<Row>>, id: Id) returns (drawn: seq<Near>)
    requires Remembers(sources, params.fanout, memo)
    requires forall s :: 0 <= s < |memo| ==> HasRow(memo[s], id)
    ensures drawn == Drawn(sources, params, id)
  {
    var lists: seq<Near> := [];
    for s := 0 to |memo|
      invariant lists == ListsFrom(sources[..s], id, params.fanout)
    {
      FetchedList(sources[s], params.fanout, memo[s], id);
      assert sources[..s + 1][..s] == sources[..s];
      lists := lists + ListOf(memo[s], id);
    }
    assert sources[..|sources|] == sources;
    return Nearest(lists, (near: Near) => near.weight < params.minWeight);
  }

  // ----- The records collected

  ghost predicate Distinct(ids: seq<Id>) {
    forall i, j :: 0 <= i < j < |ids| ==> ids[i] != ids[j]
  }

  /** Every record but the seed was drawn by one collected before it, a level nearer the seed. */
  ghost predicate Drew(sources: seq<Source>, params: Params, nodes: seq<Id>, levels: seq<nat>, k: nat)
    requires |levels| == |nodes| && k < |nodes|
  {
    exists j :: 0 <= j < k && levels[k] == levels[j] + 1 <= params.depth && Mentions(Drawn(sources, params, nodes[j]), nodes[k])
  }

  /** All the record draws are collected, at most a level further. */
  ghost predicate Spent(sources: seq<Source>, params: Params, nodes: seq<Id>, levels: seq<nat>, k: nat)
    requires |levels| == |nodes| && k < |nodes|
  {
    forall near :: near in Drawn(sources, params, nodes[k]) ==> IsAt(nodes, levels, near.id, levels[k] + 1)
  }

  ghost predicate IsAt(nodes: seq<Id>, levels: seq<nat>, id: Id, level: nat)
    requires |levels| == |nodes|
  {
    exists m :: 0 <= m < |nodes| && nodes[m] == id && levels[m] <= level
  }

  ghost predicate Grown(seed: Id, sources: seq<Source>, params: Params, nodes: seq<Id>, levels: seq<nat>) {
    && |levels| == |nodes| && nodes != [] && nodes[0] == seed && levels[0] == 0
    && Distinct(nodes) && |nodes| <= params.maxNodes
    && forall k :: 0 < k < |nodes| ==> Drew(sources, params, nodes, levels, k)
  }

  /** Unless the cap stopped it, everything within the depth was collected. */
  ghost predicate Whole(sources: seq<Source>, params: Params, nodes: seq<Id>, levels: seq<nat>)
    requires |levels| == |nodes|
  {
    |nodes| < params.maxNodes ==> forall k :: 0 <= k < |nodes| && levels[k] < params.depth ==> Spent(sources, params, nodes, levels, k)
  }

  /** A chain of records from the seed on, each drawn by the one before it. */
  ghost predicate IsChain(seed: Id, sources: seq<Source>, params: Params, chain: seq<Id>) {
    && chain != [] && chain[0] == seed
    && forall i :: 0 < i < |chain| ==> Mentions(Drawn(sources, params, chain[i - 1]), chain[i])
  }

  lemma ParentOf(sources: seq<Source>, params: Params, nodes: seq<Id>, levels: seq<nat>, k: nat) returns (j: nat)
    requires |levels| == |nodes| && k < |nodes| && Drew(sources, params, nodes, levels, k)
    ensures j < k && levels[k] == levels[j] + 1 <= params.depth && Mentions(Drawn(sources, params, nodes[j]), nodes[k])
  {
    j :| 0 <= j < k && levels[k] == levels[j] + 1 <= params.depth && Mentions(Drawn(sources, params, nodes[j]), nodes[k]);
  }

  /** A chain no longer than the depth leads to every record collected. */
  lemma {:induction false} CollectedAreDrawn(seed: Id, sources: seq<Source>, params: Params, nodes: seq<Id>, levels: seq<nat>, k: nat)
    returns (chain: seq<Id>)
    requires Grown(seed, sources, params, nodes, levels) && k < |nodes|
    ensures IsChain(seed, sources, params, chain) && chain[|chain| - 1] == nodes[k]
    ensures |chain| == levels[k] + 1 <= params.depth + 1
  {
    if k == 0 {
      chain := [seed];
    } else {
      var j := ParentOf(sources, params, nodes, levels, k);
      chain := CollectedAreDrawn(seed, sources, params, nodes, levels, j);
      chain := chain + [nodes[k]];
    }
  }

  lemma SpentHolds(sources: seq<Source>, params: Params, nodes: seq<Id>, levels: seq<nat>, m: nat, id: Id)
    requires |levels| == |nodes| && m < |nodes| && Spent(sources, params, nodes, levels, m)
    requires Mentions(Drawn(sources, params, nodes[m]), id)
    ensures IsAt(nodes, levels, id, levels[m] + 1)
  {
    var drawn := Drawn(sources, params, nodes[m]);
    var i :| 0 <= i < |drawn| && drawn[i].id == id;
    assert drawn[i] in drawn;
  }

  lemma IsAtHigher(nodes: seq<Id>, levels: seq<nat>, id: Id, level: nat, higher: nat)
    requires |levels| == |nodes| && IsAt(nodes, levels, id, level) && level <= higher
    ensures IsAt(nodes, levels, id, higher)
  {
  }

  /** Unless the cap stopped it, every record that a chain no longer than the depth leads to is collected. */
  lemma {:induction false} DrawnAreCollected(seed: Id, sources: seq<Source>, params: Params, nodes: seq<Id>, levels: seq<nat>,
                                             chain: seq<Id>)
    requires Grown(seed, sources, params, nodes, levels) && Whole(sources, params, nodes, levels)
    requires |nodes| < params.maxNodes && IsChain(seed, sources, params, chain) && |chain| <= params.depth + 1
    ensures IsAt(nodes, levels, chain[|chain| - 1], |chain| - 1)
  {
    var last := |chain| - 1;
    if last == 0 {
      assert nodes[0] == chain[0] && levels[0] <= 0;
    } else {
      var before := chain[..last];
      DrawnAreCollected(seed, sources, params, nodes, levels, before);
      var m :| 0 <= m < |nodes| && nodes[m] == before[last - 1] && levels[m] <= last - 1;
      SpentHolds(sources, params, nodes, levels, m, chain[last]);
      IsAtHigher(nodes, levels, chain[last], levels[m] + 1, last);
    }
  }

  /** Collecting one more record leaves what is known of the others. */
  lemma OneMoreRecord(sources: seq<Source>, params: Params, nodes: seq<Id>, levels: seq<nat>, id: Id, level: nat)
    requires |levels| == |nodes|
    ensures forall k :: 0 < k < |nodes| && Drew(sources, params, nodes, levels, k) ==> Drew(sources, params, nodes + [id], levels + [level], k)
    ensures forall k :: 0 <= k < |nodes| && Spent(sources, params, nodes, levels, k) ==> Spent(sources, params, nodes + [id], levels + [level], k)
    ensures forall other, at :: IsAt(nodes, levels, other, at) ==> IsAt(nodes + [id], levels + [level], other, at)
    ensures IsAt(nodes + [id], levels + [level], id, level)
  {
    var (more, further) := (nodes + [id], levels + [level]);
    assert more[|nodes|] == id && further[|nodes|] == level;
    forall other, at | IsAt(nodes, levels, other, at)
      ensures IsAt(more, further, other, at)
    {
      var m :| 0 <= m < |nodes| && nodes[m] == other && levels[m] <= at;
      assert more[m] == other && further[m] <= at;
    }
    forall k | 0 < k < |nodes| && Drew(sources, params, nodes, levels, k)
      ensures Drew(sources, params, more, further, k)
    {
      var j :| 0 <= j < k && levels[k] == levels[j] + 1 <= params.depth && Mentions(Drawn(sources, params, nodes[j]), nodes[k]);
      assert more[j] == nodes[j] && further[j] == levels[j];
    }
  }

  lemma CollectsOne(seed: Id, sources: seq<Source>, params: Params, nodes: seq<Id>, levels: seq<nat>, k: nat, id: Id)
    requires Grown(seed, sources, params, nodes, levels) && k < |nodes| && levels[k] < params.depth
    requires id !in nodes && |nodes| < params.maxNodes && Mentions(Drawn(sources, params, nodes[k]), id)
    ensures Grown(seed, sources, params, nodes + [id], levels + [levels[k] + 1])
  {
    OneMoreRecord(sources, params, nodes, levels, id, levels[k] + 1);
    var (more, further) := (nodes + [id], levels + [levels[k] + 1]);
    assert more[k] == nodes[k] && further[k] == levels[k];
    assert Drew(sources, params, more, further, |nodes|);
  }

  // ----- The order in which records are collected, with no cap on their number

  /** The records so far, and those a record draws that are new, nearest first. */
  function AddNew(nodes: seq<Id>, drawn: seq<Near>): seq<Id> {
    if drawn == [] then nodes
    else
      var before := AddNew(nodes, drawn[..|drawn| - 1]);
      var id := drawn[|drawn| - 1].id;
      if id in before then before else before + [id]
  }

  function LevelOf(sources: seq<Source>, params: Params, nodes: seq<Id>, frontier: seq<Id>): seq<Id> {
    if frontier == [] then nodes
    else
      AddNew(LevelOf(sources, params, nodes, frontier[..|frontier| - 1]), Drawn(sources, params, frontier[|frontier| - 1]))
  }

  /** Breadth first from the records at `lo` on, so many levels further. */
  function BreadthFirst(sources: seq<Source>, params: Params, nodes: seq<Id>, lo: nat, left: nat): seq<Id>
    requires lo <= |nodes|
    decreases left
  {
    if left == 0 || lo == |nodes| then nodes
    else
      var more := LevelOf(sources, params, nodes, nodes[lo..]);
      LevelExtends(sources, params, nodes, nodes[lo..]);
      BreadthFirst(sources, params, more, |nodes|, left - 1)
  }

  function Cut(nodes: seq<Id>, most: nat): seq<Id> {
    if |nodes| <= most then nodes else nodes[..most]
  }

  lemma {:induction false} AddNewExtends(nodes: seq<Id>, drawn: seq<Near>)
    ensures nodes <= AddNew(nodes, drawn)
  {
    if drawn != [] {
      AddNewExtends(nodes, drawn[..|drawn| - 1]);
    }
  }

  lemma {:induction false} LevelExtends(sources: seq<Source>, params: Params, nodes: seq<Id>, frontier: seq<Id>)
    ensures nodes <= LevelOf(sources, params, nodes, frontier)
  {
    if frontier != [] {
      var before := frontier[..|frontier| - 1];
      LevelExtends(sources, params, nodes, before);
      AddNewExtends(LevelOf(sources, params, nodes, before), Drawn(sources, params, frontier[|frontier| - 1]));
    }
  }

  lemma {:induction false} BreadthFirstExtends(sources: seq<Source>, params: Params, nodes: seq<Id>, lo: nat, left: nat)
    requires lo <= |nodes|
    ensures nodes <= BreadthFirst(sources, params, nodes, lo, left)
    decreases left
  {
    if left > 0 && lo < |nodes| {
      var more := LevelOf(sources, params, nodes, nodes[lo..]);
      LevelExtends(sources, params, nodes, nodes[lo..]);
      var (end, rest) := (|nodes|, left - 1);
      var grown := BreadthFirst(sources, params, more, end, rest);
      BreadthFirstExtends(sources, params, more, end, rest);
      ExtendsOn(nodes, more, grown);
      assert BreadthFirst(sources, params, nodes, lo, left) == grown;
    }
  }

  lemma ExtendsOn(a: seq<Id>, b: seq<Id>, c: seq<Id>)
    requires a <= b <= c
    ensures a <= c
  {
  }

  /** What is cut from some records is cut from any more behind them. */
  lemma CutIsPrefix(nodes: seq<Id>, more: seq<Id>, most: nat)
    requires nodes <= more && |nodes| >= most
    ensures Cut(more, most) == Cut(nodes, most) == nodes[..most]
  {
  }

  /** One more neighbour, as far as the cap allows. */
  lemma CutAdds(nodes: seq<Id>, drawn: seq<Near>, i: nat, most: nat)
    requires i < |drawn|
    ensures
      var (more, id) := (Cut(AddNew(nodes, drawn[..i]), most), drawn[i].id);
      Cut(AddNew(nodes, drawn[..i + 1]), most) == if id !in more && |more| < most then more + [id] else more
  {
    assert drawn[..i + 1][..i] == drawn[..i];
  }

  lemma CutThenAdd(nodes: seq<Id>, drawn: seq<Near>, most: nat)
    ensures Cut(AddNew(Cut(nodes, most), drawn), most) == Cut(AddNew(nodes, drawn), most)
  {
    if |nodes| > most {
      AddNewExtends(nodes, drawn);
      AddNewExtends(nodes[..most], drawn);
      CutIsPrefix(nodes, AddNew(nodes, drawn), most);
      CutIsPrefix(nodes[..most], AddNew(nodes[..most], drawn), most);
    }
  }

  lemma LevelGoesOn(sources: seq<Source>, params: Params, nodes: seq<Id>, frontier: seq<Id>, f: nat, drawn: seq<Near>, most: nat)
    requires f < |frontier| && drawn == Drawn(sources, params, frontier[f])
    ensures Cut(AddNew(Cut(LevelOf(sources, params, nodes, frontier[..f]), most), drawn), most)
            == Cut(LevelOf(sources, params, nodes, frontier[..f + 1]), most)
  {
    assert frontier[..f + 1][..f] == frontier[..f];
    CutThenAdd(LevelOf(sources, params, nodes, frontier[..f]), drawn, most);
  }

  /** A level that the cap cuts short ends the growth where the cap does. */
  lemma {:induction false} LevelIsCut(sources: seq<Source>, params: Params, nodes: seq<Id>, lo: nat, left: nat, end: nat,
                                      rest: nat, more: seq<Id>, most: nat)
    requires lo < |nodes| == end <= most && left == rest + 1
    requires more == Cut(LevelOf(sources, params, nodes, nodes[lo..]), most) && nodes <= more
    ensures Cut(BreadthFirst(sources, params, nodes, lo, left), most)
            == Cut(BreadthFirst(sources, params, more, end, rest), most)
  {
    var level := LevelOf(sources, params, nodes, nodes[lo..]);
    LevelExtends(sources, params, nodes, nodes[lo..]);
    assert BreadthFirst(sources, params, nodes, lo, left) == BreadthFirst(sources, params, level, end, rest);
    if |level| > most {
      GrowthIsCut(sources, params, level, end, rest, most);
      GrowthIsCut(sources, params, more, end, rest, most);
    }
  }

  /** Growth from as many records as the cap allows is cut to the first of them. */
  lemma {:induction false} GrowthIsCut(sources: seq<Source>, params: Params, nodes: seq<Id>, lo: nat, left: nat, most: nat)
    requires lo <= |nodes| && most <= |nodes|
    ensures Cut(BreadthFirst(sources, params, nodes, lo, left), most) == nodes[..most]
  {
    BreadthFirstExtends(sources, params, nodes, lo, left);
    CutIsPrefix(nodes, BreadthFirst(sources, params, nodes, lo, left), most);
  }

  /** When growth stops, no more would be kept. */
  lemma GrowthStops(sources: seq<Source>, params: Params, nodes: seq<Id>, lo: nat, left: nat, most: nat)
    requires lo <= |nodes| <= most && (left == 0 || lo == |nodes| || |nodes| == most)
    ensures Cut(BreadthFirst(sources, params, nodes, lo, left), most) == nodes
  {
    if |nodes| == most {
      GrowthIsCut(sources, params, nodes, lo, left, most);
    }
  }

  /** The records from `nodes` on were drawn by the `k`-th, and what was spent before still is. */
  ghost predicate Collecting(seed: Id, sources: seq<Source>, params: Params, nodes: seq<Id>, levels: seq<nat>, k: nat,
                             more: seq<Id>, further: seq<nat>)
    requires |levels| == |nodes| && k < |nodes|
  {
    && Grown(seed, sources, params, more, further) && nodes <= more && levels <= further
    && (forall m :: |nodes| <= m < |more| ==> further[m] == levels[k] + 1)
    && StaySpent(sources, params, nodes, levels, more, further)
  }

  ghost predicate StaySpent(sources: seq<Source>, params: Params, nodes: seq<Id>, levels: seq<nat>, more: seq<Id>,
                            further: seq<nat>)
    requires |levels| == |nodes| <= |more| == |further|
  {
    forall m :: 0 <= m < |nodes| && Spent(sources, params, nodes, levels, m) ==> Spent(sources, params, more, further, m)
  }

  /** Unless the cap stopped it, the first `i` neighbours are collected. */
  ghost predicate Placed(params: Params, more: seq<Id>, further: seq<nat>, drawn: seq<Near>, i: nat, level: nat)
    requires |further| == |more| && i <= |drawn|
  {
    |more| < params.maxNodes ==> forall n :: 0 <= n < i ==> IsAt(more, further, drawn[n].id, level)
  }

  lemma PlacedIsSpent(sources: seq<Source>, params: Params, more: seq<Id>, further: seq<nat>, drawn: seq<Near>, k: nat)
    requires |further| == |more| && k < |more| && drawn == Drawn(sources, params, more[k])
    requires Placed(params, more, further, drawn, |drawn|, further[k] + 1)
    ensures |more| < params.maxNodes ==> Spent(sources, params, more, further, k)
  {
  }

  /** Collects one neighbour, if it is new and the cap allows. */
  method CollectNear(seed: Id, ghost sources: seq<Source>, params: Params, ghost nodes: seq<Id>, ghost levels: seq<nat>,
                     ghost k: nat, more: seq<Id>, ghost further: seq<nat>, drawn: seq<Near>, i: nat)
    returns (next: seq<Id>, ghost onward: seq<nat>)
    requires |levels| == |nodes| && k < |nodes| && Collecting(seed, sources, params, nodes, levels, k, more, further)
    requires levels[k] < params.depth && drawn == Drawn(sources, params, nodes[k]) && i < |drawn|
    requires forall m :: 0 <= m < |nodes| ==> levels[m] <= levels[k] + 1
    requires Placed(params, more, further, drawn, i, levels[k] + 1)
    ensures Collecting(seed, sources, params, nodes, levels, k, next, onward)
    ensures next == if drawn[i].id !in more && |more| < params.maxNodes then more + [drawn[i].id] else more
    ensures Placed(params, next, onward, drawn, i + 1, levels[k] + 1)
  {
    var id := drawn[i].id;
    next, onward := more, further;
    assert more[k] == nodes[k] && further[k] == levels[k];
    if id !in more && |more| < params.maxNodes {
      assert Mentions(drawn, id);
      CollectsOne(seed, sources, params, more, further, k, id);
      OneMoreRecord(sources, params, more, further, id, levels[k] + 1);
      next, onward := more + [id], further + [levels[k] + 1];
    } else if id in more {
      ghost var m :| 0 <= m < |more| && more[m] == id;
      assert further[m] <= levels[k] + 1;
    }
  }

  /** Collects what one record draws, as far as the cap allows. */
  method Collect(seed: Id, ghost sources: seq<Source>, params: Params, nodes: seq<Id>, ghost levels: seq<nat>, ghost k: nat,
                 drawn: seq<Near>)
    returns (more: seq<Id>, ghost further: seq<nat>)
    requires Grown(seed, sources, params, nodes, levels) && k < |nodes| && levels[k] < params.depth
    requires drawn == Drawn(sources, params, nodes[k])
    requires forall m :: 0 <= m < |nodes| ==> levels[m] <= levels[k] + 1
    ensures Collecting(seed, sources, params, nodes, levels, k, more, further)
    ensures |more| < params.maxNodes ==> Spent(sources, params, more, further, k)
    ensures more == Cut(AddNew(nodes, drawn), params.maxNodes)
  {
    more, further := nodes, levels;
    for i := 0 to |drawn|
      invariant Collecting(seed, sources, params, nodes, levels, k, more, further)
      invariant Placed(params, more, further, drawn, i, levels[k] + 1)
      invariant more == Cut(AddNew(nodes, drawn[..i]), params.maxNodes)
    {
      CutAdds(nodes, drawn, i, params.maxNodes);
      more, further := CollectNear(seed, sources, params, nodes, levels, k, more, further, drawn, i);
    }
    assert more[k] == nodes[k] && further[k] == levels[k];
    PlacedIsSpent(sources, params, more, further, drawn, k);
    assert drawn[..|drawn|] == drawn;
  }

  /** The frontier's records are the last ones collected, all at one level. */
  ghost predicate Frontier(nodes: seq<Id>, levels: seq<nat>, lo: nat, level: nat) {
    && |levels| == |nodes| && lo <= |nodes|
    && (forall m :: 0 <= m < lo ==> levels[m] < level) && (forall m :: lo <= m < |nodes| ==> levels[m] == level)
  }

  ghost predicate SpentUpTo(sources: seq<Source>, params: Params, nodes: seq<Id>, levels: seq<nat>, n: nat)
    requires |levels| == |nodes| && n <= |nodes|
  {
    |nodes| < params.maxNodes ==> forall k :: 0 <= k < n ==> Spent(sources, params, nodes, levels, k)
  }

  /** The records behind the first ones are all at the level. */
  ghost predicate Adds(nodes: seq<Id>, levels: seq<nat>, more: seq<Id>, further: seq<nat>, level: nat) {
    && |levels| == |nodes| <= |more| == |further| && nodes <= more && levels <= further
    && forall m :: |nodes| <= m < |more| ==> further[m] == level
  }

  lemma AddsAtMost(nodes: seq<Id>, levels: seq<nat>, lo: nat, level: nat, more: seq<Id>, further: seq<nat>)
    requires Frontier(nodes, levels, lo, level) && Adds(nodes, levels, more, further, level + 1)
    ensures forall m :: 0 <= m < |more| ==> further[m] <= level + 1
  {
    assert forall m :: 0 <= m < |nodes| ==> further[m] == levels[m];
  }

  lemma AddsOn(seed: Id, sources: seq<Source>, params: Params, nodes: seq<Id>, levels: seq<nat>, more: seq<Id>,
               further: seq<nat>, k: nat, onward: seq<Id>, depths: seq<nat>)
    requires |further| == |more| && k < |more| && Adds(nodes, levels, more, further, further[k] + 1)
    requires Collecting(seed, sources, params, more, further, k, onward, depths)
    ensures Adds(nodes, levels, onward, depths, further[k] + 1)
  {
    ExtendsOn(nodes, more, onward);
    assert forall m :: 0 <= m < |more| ==> depths[m] == further[m];
  }

  /** One more record of the frontier is spent. */
  lemma {:induction false} SpentOneOn(sources: seq<Source>, params: Params, nodes: seq<Id>, levels: seq<nat>, k: nat,
                                      more: seq<Id>, further: seq<nat>)
    requires k < |nodes| == |levels| && |nodes| <= |more| == |further|
    requires StaySpent(sources, params, nodes, levels, more, further) && SpentUpTo(sources, params, nodes, levels, k)
    requires |more| < params.maxNodes ==> Spent(sources, params, more, further, k)
    ensures SpentUpTo(sources, params, more, further, k + 1)
  {
  }

  /** Expands one level. */
  method GrowLevel(seed: Id, ghost sources: seq<Source>, params: Params, nodes: seq<Id>, ghost levels: seq<nat>,
                   ghost lo: nat, ghost level: nat, frontier: seq<Id>, memo: seq<seq<Row>>)
    returns (more: seq<Id>, ghost further: seq<nat>, next: seq<Id>)
    requires Grown(seed, sources, params, nodes, levels) && Frontier(nodes, levels, lo, level) && level < params.depth
    requires frontier == nodes[lo..] && Remembers(sources, params.fanout, memo) && HasAll(memo, frontier)
    requires SpentUpTo(sources, params, nodes, levels, lo)
    ensures Grown(seed, sources, params, more, further) && Frontier(more, further, |nodes|, level + 1)
    ensures nodes <= more && next == more[|nodes|..] && SpentUpTo(sources, params, more, further, |nodes|)
    ensures more == Cut(LevelOf(sources, params, nodes, frontier), params.maxNodes)
  {
    more, further := nodes, levels;
    for f := 0 to |frontier|
      invariant Grown(seed, sources, params, more, further) && Adds(nodes, levels, more, further, level + 1)
      invariant SpentUpTo(sources, params, more, further, lo + f)
      invariant more == Cut(LevelOf(sources, params, nodes, frontier[..f]), params.maxNodes)
    {
      ghost var k := lo + f;
      assert more[k] == nodes[k] == frontier[f] && further[k] == levels[k] == level;
      AddsAtMost(nodes, levels, lo, level, more, further);
      var drawn := Expansion(sources, params, memo, frontier[f]);
      LevelGoesOn(sources, params, nodes, frontier, f, drawn, params.maxNodes);
      ghost var (before, reached) := (more, further);
      more, further := Collect(seed, sources, params, more, further, k, drawn);
      SpentOneOn(sources, params, before, reached, k, more, further);
      AddsOn(seed, sources, params, nodes, levels, before, reached, k, more, further);
    }
    assert frontier[..|frontier|] == frontier;
    next := more[|nodes|..];
  }

  lemma WholeAtTheEnd(sources: seq<Source>, params: Params, nodes: seq<Id>, levels: seq<nat>, lo: nat, level: nat)
    requires Frontier(nodes, levels, lo, level) && SpentUpTo(sources, params, nodes, levels, lo)
    requires level >= params.depth || lo == |nodes| || |nodes| >= params.maxNodes
    ensures Whole(sources, params, nodes, levels)
  {
  }

  /** Grows the records around the seed, level by level, and fetches the lists the edges need. The records collected are
      the first ones, as many as the cap allows, in breadth-first order, each record's own neighbours nearest first. */
  method Grow(seed: Id, sources: seq<Source>, params: Params)
    returns (nodes: seq<Id>, memo: seq<seq<Row>>, ghost levels: seq<nat>)
    requires Allowed(params)
    ensures Grown(seed, sources, params, nodes, levels) && Whole(sources, params, nodes, levels)
    ensures Remembers(sources, params.fanout, memo) && (params.mutualOnly ==> HasAll(memo, nodes))
    ensures nodes == Cut(BreadthFirst(sources, params, [seed], 0, params.depth), params.maxNodes)
  {
    memo := seq(|sources|, _ => []);
    nodes, levels := [seed], [0];
    var frontier := [seed];
    ghost var lo: nat := 0;
    var level: nat := 0;
    ghost var left := params.depth;
    ghost var whole := Cut(BreadthFirst(sources, params, [seed], 0, params.depth), params.maxNodes);
    while level < params.depth && frontier != [] && |nodes| < params.maxNodes
      invariant Grown(seed, sources, params, nodes, levels) && Frontier(nodes, levels, lo, level) && level <= params.depth
      invariant frontier == nodes[lo..] && Remembers(sources, params.fanout, memo)
      invariant SpentUpTo(sources, params, nodes, levels, lo)
      invariant left == params.depth - level
      invariant Cut(BreadthFirst(sources, params, nodes, lo, left), params.maxNodes) == whole
      decreases params.depth - level
    {
      memo := Fetch(sources, params.fanout, memo, frontier);
      ghost var end, before, rest := |nodes|, nodes, left - 1;
      nodes, levels, frontier := GrowLevel(seed, sources, params, nodes, levels, lo, level, frontier, memo);
      LevelIsCut(sources, params, before, lo, left, end, rest, nodes, params.maxNodes);
      lo, level, left := end, level + 1, rest;
    }
    GrowthStops(sources, params, nodes, lo, left, params.maxNodes);
    WholeAtTheEnd(sources, params, nodes, levels, lo, level);
    if params.mutualOnly {
      memo := Fetch(sources, params.fanout, memo, nodes);
    }
  }

  // ----- The graph

  datatype Node = Node(id: Id, community: int)

  datatype Graph = Graph(nodes: seq<Node>, edges: seq<Edge>, seed: Id, converged: bool)

  function ListsOf(sources: seq<Source>, memo: seq<seq<Row>>): seq<Lists>
    requires |memo| == |sources|
  {
    if sources == [] then []
    else ListsOf(sources[..|sources| - 1], memo[..|memo| - 1]) + [Lists(sources[|sources| - 1].kind, memo[|memo| - 1])]
  }

  /** The edges are selected from every source's lists, under its own kind. */
  lemma {:induction false} ListsOfAre(sources: seq<Source>, memo: seq<seq<Row>>)
    requires |memo| == |sources|
    ensures |ListsOf(sources, memo)| == |sources|
    ensures forall s :: 0 <= s < |sources| ==> ListsOf(sources, memo)[s] == Lists(sources[s].kind, memo[s])
  {
    if sources != [] {
      ListsOfAre(sources[..|sources| - 1], memo[..|memo| - 1]);
    }
  }

  function Ids(nodes: seq<Node>): seq<Id> {
    if nodes == [] then [] else [nodes[0].id] + Ids(nodes[1..])
  }

  function Kept(nodes: seq<Id>, connected: set<Id>): seq<Id> {
    if nodes == [] then [] else (if nodes[0] in connected then [nodes[0]] else []) + Kept(nodes[1..], connected)
  }

  function KeptEdges(edges: seq<Edge>, connected: set<Id>): seq<Edge> {
    if edges == [] then [] else (if edges[0].source in connected then [edges[0]] else []) + KeptEdges(edges[1..], connected)
  }

  lemma {:induction false} KeptAre(nodes: seq<Id>, connected: set<Id>, id: Id)
    ensures id in Kept(nodes, connected) <==> id in nodes && id in connected
    ensures |Kept(nodes, connected)| <= |nodes|
  {
    if nodes != [] {
      KeptAre(nodes[1..], connected, id);
    }
  }

  lemma {:induction false} KeptEdgesAre(edges: seq<Edge>, connected: set<Id>, e: Edge)
    ensures e in KeptEdges(edges, connected) <==> e in edges && e.source in connected
  {
    if edges != [] {
      KeptEdgesAre(edges[1..], connected, e);
    }
  }

  lemma {:induction false} KeptInOrder(nodes: seq<Id>, connected: set<Id>)
    requires Distinct(nodes)
    ensures Distinct(Kept(nodes, connected))
    ensures nodes != [] && nodes[0] in connected ==> Kept(nodes, connected)[0] == nodes[0]
  {
    if nodes != [] {
      assert Distinct(nodes[1..]);
      KeptInOrder(nodes[1..], connected);
      KeptAre(nodes[1..], connected, nodes[0]);
      assert nodes[0] !in nodes[1..];
    }
  }

  /** The records kept stand at these places among all. */
  ghost predicate StandAt(nodes: seq<Id>, kept: seq<Id>, at: seq<nat>) {
    && |at| == |kept| && (forall i :: 0 <= i < |at| ==> at[i] < |nodes| && nodes[at[i]] == kept[i])
    && forall i, j :: 0 <= i < j < |at| ==> at[i] < at[j]
  }

  /** They come in the order of all. */
  ghost predicate KeepsOrder(nodes: seq<Id>, kept: seq<Id>) {
    exists at :: StandAt(nodes, kept, at)
  }

  lemma {:induction false} KeptKeepsOrder(nodes: seq<Id>, connected: set<Id>) returns (at: seq<nat>)
    ensures StandAt(nodes, Kept(nodes, connected), at)
  {
    at := [];
    if nodes != [] {
      var rest := KeptKeepsOrder(nodes[1..], connected);
      at := StandFurther(nodes, Kept(nodes[1..], connected), rest);
      if nodes[0] in connected {
        at := [0] + at;
      }
    }
  }

  lemma {:induction false} StandFurther(nodes: seq<Id>, kept: seq<Id>, at: seq<nat>) returns (further: seq<nat>)
    requires nodes != [] && StandAt(nodes[1..], kept, at)
    ensures StandAt(nodes, kept, further) && StandAt(nodes, [nodes[0]] + kept, [0] + further)
  {
    further := seq(|at|, i requires 0 <= i < |at| => at[i] + 1);
    assert forall i :: 0 <= i < |at| ==> nodes[further[i]] == nodes[1..][at[i]];
  }

  lemma {:induction false} KeptEdgesStayInOrder(edges: seq<Edge>, connected: set<Id>)
    requires InOrder(edges)
    ensures InOrder(KeptEdges(edges, connected))
  {
    if edges != [] {
      assert InOrder(edges[1..]);
      KeptEdgesStayInOrder(edges[1..], connected);
      var rest := KeptEdges(edges[1..], connected);
      forall k | 0 <= k < |rest|
        ensures EdgeSelection.Before(KeyOf(edges[0]), KeyOf(rest[k]))
      {
        KeptEdgesAre(edges[1..], connected, rest[k]);
        var m :| 0 <= m < |edges[1..]| && edges[1..][m] == rest[k];
        assert edges[m + 1] == rest[k];
      }
    }
  }

  /** What a discovery graph is, of the records collected and the edges selected between them. */
  ghost predicate IsGraphOf(graph: Graph, seed: Id, nodes: seq<Id>, selected: seq<Edge>, params: Params) {
    var ids := Ids(graph.nodes);
    && graph.seed == seed && ids != [] && ids[0] == seed && Distinct(ids) && |ids| <= params.maxNodes
    && (forall id :: id in ids <==> id in nodes && Reaches(selected, seed, id))
    && KeepsOrder(nodes, ids) && InOrder(graph.edges)
    && (forall e :: e in graph.edges <==> e in selected && e.source in ids)
    && (forall e :: e in graph.edges ==> e.target in ids)
    && graph.converged == CommunitiesOf(ids, graph.edges, params.maxIterations).1
    && forall i :: 0 <= i < |graph.nodes| ==>
         && graph.nodes[i].id in CommunitiesOf(ids, graph.edges, params.maxIterations).0
         && graph.nodes[i].community == CommunitiesOf(ids, graph.edges, params.maxIterations).0[graph.nodes[i].id]
  }

  method NodesOf(ids: seq<Id>, communities: Labels) returns (nodes: seq<Node>)
    requires Labelled(ids, communities)
    ensures Ids(nodes) == ids && |nodes| == |ids|
    ensures forall i :: 0 <= i < |nodes| ==> nodes[i].id in communities && nodes[i].community == communities[nodes[i].id]
  {
    nodes := [];
    for i := 0 to |ids|
      invariant |nodes| == i && Ids(nodes) == ids[..i]
      invariant forall k :: 0 <= k < i ==> nodes[k].id in communities && nodes[k].community == communities[nodes[k].id]
    {
      IdsOneMore(nodes, Node(ids[i], communities[ids[i]]));
      nodes := nodes + [Node(ids[i], communities[ids[i]])];
    }
    assert ids[..|ids|] == ids;
  }

  lemma {:induction false} IdsOneMore(nodes: seq<Node>, node: Node)
    ensures Ids(nodes + [node]) == Ids(nodes) + [node.id]
  {
    if nodes != [] {
      IdsOneMore(nodes[1..], node);
      assert (nodes + [node])[1..] == nodes[1..] + [node];
    }
  }

  /** An edge of the graph joins reached records only. */
  lemma EdgesStayReached(selected: seq<Edge>, seed: Id, nodes: seq<Id>, e: Edge)
    requires e in selected && Reaches(selected, seed, e.source)
    ensures Reaches(selected, seed, e.target)
  {
    assert Touches(e, e.source, e.target);
    OneStepFurther(selected, seed, e.source, e.target);
  }

  lemma CommunitiesCoverRecords(ids: seq<Id>, edges: seq<Edge>, maxIterations: nat)
    ensures Labelled(ids, CommunitiesOf(ids, edges, maxIterations).0)
  {
    SortedIsAscending(ids);
    forall i | 0 <= i < |ids|
      ensures ids[i] in CommunitiesOf(ids, edges, maxIterations).0
    {
      var id := ids[i];
      assert id in ids && id in Sorted(ids);
    }
  }

  /** Builds the discovery graph around the seed; `None` without a source. */
  method BuildDiscoveryGraph(seed: Id, sources: seq<Source>, params: Params)
    returns (graph: Option<Graph>, ghost nodes: seq<Id>, ghost levels: seq<nat>, ghost memo: seq<seq<Row>>)
    requires Allowed(params)
    ensures graph.None? <==> sources == []
    ensures graph.Some? ==>
              && Grown(seed, sources, params, nodes, levels) && Whole(sources, params, nodes, levels)
              && Remembers(sources, params.fanout, memo) && (params.mutualOnly ==> HasAll(memo, nodes))
              && nodes == Cut(BreadthFirst(sources, params, [seed], 0, params.depth), params.maxNodes)
              && var rules := Rules((set id | id in nodes), params.minWeight, params.mutualOnly);
                 IsGraphOf(graph.value, seed, nodes, Selected(rules, ListsOf(sources, memo)), params)
  {
    if sources == [] {
      nodes, levels, memo := [], [], [];
      return None, nodes, levels, memo;
    }
    var collected, fetched;
    collected, fetched, levels := Grow(seed, sources, params);
    nodes, memo := collected, fetched;
    var rules := Rules((set id | id in collected), params.minWeight, params.mutualOnly);
    var candidates := SelectEdges(ListsOf(sources, fetched), rules);
    var connected := Connected(seed, candidates);
    var kept, edges := Kept(collected, connected), KeptEdges(candidates, connected);
    KeepsTheReached(seed, collected, rules, ListsOf(sources, fetched), connected);
    ghost var at := KeptKeepsOrder(collected, connected);
    MergedAt(Offered(rules, ListsOf(sources, fetched)), Key(0, 0, 0));
    KeptEdgesStayInOrder(candidates, connected);
    var labelled := LabelPropagation.LabelCommunities(kept, edges, params.maxIterations);
    CommunitiesCoverRecords(kept, edges, params.maxIterations);
    var graphNodes := NodesOf(kept, labelled.value.0);
    graph := Some(Graph(graphNodes, edges, seed, labelled.value.1));
  }

  /** Keeping the records and edges in reach leaves no edge dangling, and keeps the seed first. */
  lemma KeepsTheReached(seed: Id, nodes: seq<Id>, rules: Rules, sources: seq<Lists>, connected: set<Id>)
    requires nodes != [] && nodes[0] == seed && Distinct(nodes) && rules.members == set id | id in nodes
    requires forall id :: id in connected <==> Reaches(Selected(rules, sources), seed, id)
    ensures
      var (selected, kept) := (Selected(rules, sources), Kept(nodes, connected));
      var edges := KeptEdges(selected, connected);
      && kept != [] && kept[0] == seed && Distinct(kept) && |kept| <= |nodes|
      && (forall id :: id in kept <==> id in nodes && Reaches(selected, seed, id))
      && (forall e :: e in edges <==> e in selected && e.source in kept)
      && (forall e :: e in edges ==> e.target in kept)
  {
    var (selected, kept) := (Selected(rules, sources), Kept(nodes, connected));
    var edges := KeptEdges(selected, connected);
    assert ReachesIn(selected, seed, seed, 0);
    KeptInOrder(nodes, connected);
    KeptAre(nodes, connected, seed);
    forall id
      ensures id in kept <==> id in nodes && Reaches(selected, seed, id)
    {
      KeptAre(nodes, connected, id);
    }
    forall e
      ensures e in edges <==> e in selected && e.source in kept
      ensures e in edges ==> e.target in kept
    {
      KeptEdgesAre(selected, connected, e);
      KeptAre(nodes, connected, e.source);
      KeptAre(nodes, connected, e.target);
      if e in selected {
        SelectedKeepTheRules(rules, sources, e);
        if e.source in connected {
          EdgesStayReached(selected, seed, nodes, e);
        }
      }
    }
  }
}
