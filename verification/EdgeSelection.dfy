/** Neighbour lists and the edges chosen from them (search/graph.py). */
module EdgeSelection {
  import opened Communities

  datatype Near = Near(id: Id, weight: real)

  /** One record's neighbour list; the rows of a source are its dict, in order. */
  datatype Row = Row(id: Id, list: seq<Near>)

  datatype Lists = Lists(kind: Kind, rows: seq<Row>)

  datatype Rules = Rules(members: set<Id>, minWeight: real, mutualOnly: bool)

  function ListOf(rows: seq<Row>, id: Id): seq<Near> {
    if rows == [] then [] else if rows[0].id == id then rows[0].list else ListOf(rows[1..], id)
  }

  predicate Mentions(list: seq<Near>, id: Id) {
    exists i :: 0 <= i < |list| && list[i].id == id
  }

  /** Whether a neighbour on the record's list makes an edge. */
  predicate Admits(rules: Rules, rows: seq<Row>, id: Id, near: Near) {
    && id in rules.members && near.id in rules.members && near.id != id && near.weight >= rules.minWeight
    && (rules.mutualOnly ==> Mentions(ListOf(rows, near.id), id))
  }

  function EdgeTo(kind: Kind, id: Id, near: Near): Edge {
    if id < near.id then Edge(id, near.id, near.weight, kind) else Edge(near.id, id, near.weight, kind)
  }

  // ----- What the lists offer, in the order they are read

  function FromList(rules: Rules, lists: Lists, id: Id, list: seq<Near>): seq<Edge> {
    if list == [] then []
    else
      FromList(rules, lists, id, list[..|list| - 1])
      + if Admits(rules, lists.rows, id, list[|list| - 1]) then [EdgeTo(lists.kind, id, list[|list| - 1])] else []
  }

  function FromRows(rules: Rules, lists: Lists, rows: seq<Row>): seq<Edge> {
    if rows == [] then []
    else FromRows(rules, lists, rows[..|rows| - 1]) + FromList(rules, lists, rows[|rows| - 1].id, rows[|rows| - 1].list)
  }

  function Offered(rules: Rules, sources: seq<Lists>): seq<Edge> {
    if sources == [] then []
    else Offered(rules, sources[..|sources| - 1]) + FromRows(rules, sources[|sources| - 1], sources[|sources| - 1].rows)
  }

  /** A neighbour on the list offers the edge. */
  ghost predicate ListOffers(rules: Rules, lists: Lists, id: Id, list: seq<Near>, e: Edge) {
    exists near :: near in list && Admits(rules, lists.rows, id, near) && e == EdgeTo(lists.kind, id, near)
  }

  ghost predicate RowsOffer(rules: Rules, lists: Lists, rows: seq<Row>, e: Edge) {
    exists row :: row in rows && ListOffers(rules, lists, row.id, row.list, e)
  }

  ghost predicate Offers(rules: Rules, sources: seq<Lists>, e: Edge) {
    exists lists :: lists in sources && RowsOffer(rules, lists, lists.rows, e)
  }

  lemma {:induction false} FromListIs(rules: Rules, lists: Lists, id: Id, list: seq<Near>, e: Edge)
    ensures e in FromList(rules, lists, id, list) <==> ListOffers(rules, lists, id, list, e)
  {
    if list != [] {
      var (before, last) := (list[..|list| - 1], list[|list| - 1]);
      FromListIs(rules, lists, id, before, e);
      assert forall near :: near in list <==> near in before || near == last;
    }
  }

  lemma {:induction false} FromRowsIs(rules: Rules, lists: Lists, rows: seq<Row>, e: Edge)
    ensures e in FromRows(rules, lists, rows) <==> RowsOffer(rules, lists, rows, e)
  {
    if rows != [] {
      var (before, last) := (rows[..|rows| - 1], rows[|rows| - 1]);
      FromRowsIs(rules, lists, before, e);
      FromListIs(rules, lists, last.id, last.list, e);
      assert forall row :: row in rows <==> row in before || row == last;
    }
  }

  lemma {:induction false} OfferedIs(rules: Rules, sources: seq<Lists>, e: Edge)
    ensures e in Offered(rules, sources) <==> Offers(rules, sources, e)
  {
    if sources != [] {
      var (before, last) := (sources[..|sources| - 1], sources[|sources| - 1]);
      OfferedIs(rules, before, e);
      FromRowsIs(rules, last, last.rows, e);
      assert forall lists :: lists in sources <==> lists in before || lists == last;
    }
  }

  // ----- Merged by pair and kind

  datatype Key = Key(source: Id, target: Id, kind: Kind)

  function KeyOf(e: Edge): Key {
    Key(e.source, e.target, e.kind)
  }

  predicate Before(k: Key, l: Key) {
    || k.source < l.source
    || (k.source == l.source && (k.target < l.target || (k.target == l.target && k.kind < l.kind)))
  }

  ghost predicate InOrder(edges: seq<Edge>) {
    forall i, j :: 0 <= i < j < |edges| ==> Before(KeyOf(edges[i]), KeyOf(edges[j]))
  }

  function Heavier(weight: Option<real>, other: real): real {
    if weight.Some? && weight.value > other then weight.value else other
  }

  /** Adds an edge in its place, keeping the heavier of two with one key. */
  function Merge(edges: seq<Edge>, e: Edge): seq<Edge> {
    if edges == [] || Before(KeyOf(e), KeyOf(edges[0])) then [e] + edges
    else if KeyOf(e) == KeyOf(edges[0]) then [e.(weight := Heavier(Some(edges[0].weight), e.weight))] + edges[1..]
    else [edges[0]] + Merge(edges[1..], e)
  }

  function Merged(offered: seq<Edge>): seq<Edge> {
    if offered == [] then [] else Merge(Merged(offered[..|offered| - 1]), offered[|offered| - 1])
  }

  function WeightAt(edges: seq<Edge>, key: Key): Option<real> {
    if edges == [] then None else if KeyOf(edges[0]) == key then Some(edges[0].weight) else WeightAt(edges[1..], key)
  }

  function HeaviestAt(offered: seq<Edge>, key: Key): Option<real> {
    if offered == [] then None
    else
      var (before, e) := (HeaviestAt(offered[..|offered| - 1], key), offered[|offered| - 1]);
      if KeyOf(e) == key then Some(Heavier(before, e.weight)) else before
  }

  lemma {:induction false} LaterKeys(edges: seq<Edge>, key: Key)
    requires InOrder(edges) && edges != [] && (Before(key, KeyOf(edges[0])) || key == KeyOf(edges[0]))
    ensures WeightAt(edges[1..], key) == None
  {
    if |edges| > 1 {
      assert Before(KeyOf(edges[0]), KeyOf(edges[1]));
      assert InOrder(edges[1..]);
      LaterKeys(edges[1..], key);
    }
  }

  lemma {:induction false} MergeAt(edges: seq<Edge>, e: Edge, key: Key)
    requires InOrder(edges)
    ensures
      WeightAt(Merge(edges, e), key)
      == if key == KeyOf(e) then Some(Heavier(WeightAt(edges, key), e.weight)) else WeightAt(edges, key)
  {
    if edges != [] {
      if Before(KeyOf(e), KeyOf(edges[0])) {
        LaterKeys(edges, KeyOf(e));
        assert Merge(edges, e)[1..] == edges;
      } else if KeyOf(e) != KeyOf(edges[0]) {
        assert InOrder(edges[1..]);
        MergeAt(edges[1..], e, key);
      }
    }
  }

  lemma {:induction false} MergeKeepsOrder(edges: seq<Edge>, e: Edge)
    requires InOrder(edges)
    ensures InOrder(Merge(edges, e))
    ensures forall f :: f in Merge(edges, e) ==> KeyOf(f) == KeyOf(e) || f in edges
  {
    if edges != [] && !Before(KeyOf(e), KeyOf(edges[0])) && KeyOf(e) != KeyOf(edges[0]) {
      assert InOrder(edges[1..]);
      MergeKeepsOrder(edges[1..], e);
      var rest := Merge(edges[1..], e);
      forall j | 0 <= j < |rest|
        ensures Before(KeyOf(edges[0]), KeyOf(rest[j]))
      {
        assert rest[j] in rest;
      }
    }
  }

  lemma {:induction false} MergedAt(offered: seq<Edge>, key: Key)
    ensures InOrder(Merged(offered)) && WeightAt(Merged(offered), key) == HeaviestAt(offered, key)
  {
    if offered != [] {
      var before := offered[..|offered| - 1];
      MergedAt(before, key);
      MergeKeepsOrder(Merged(before), offered[|offered| - 1]);
      MergeAt(Merged(before), offered[|offered| - 1], key);
    }
  }

  lemma {:induction false} WeightAtIs(edges: seq<Edge>, e: Edge)
    requires InOrder(edges)
    ensures e in edges <==> WeightAt(edges, KeyOf(e)) == Some(e.weight)
  {
    if edges != [] {
      assert InOrder(edges[1..]);
      WeightAtIs(edges[1..], e);
      if KeyOf(edges[0]) == KeyOf(e) {
        LaterKeys(edges, KeyOf(e));
      }
    }
  }

  /** The heaviest offer for a key is an offer, and no other is heavier. */
  lemma {:induction false} HeaviestAtIs(offered: seq<Edge>, e: Edge)
    ensures
      HeaviestAt(offered, KeyOf(e)) == Some(e.weight)
      <==> e in offered && forall f :: f in offered && KeyOf(f) == KeyOf(e) ==> f.weight <= e.weight
  {
    if offered != [] {
      var (before, last) := (offered[..|offered| - 1], offered[|offered| - 1]);
      HeaviestIsOffered(before, KeyOf(e));
      HeaviestAtIs(before, e);
      assert forall f :: f in offered <==> f in before || f == last;
      if KeyOf(last) == KeyOf(e) {
        assert e in offered && e.weight == last.weight ==> e == last;
      }
    }
  }

  lemma {:induction false} HeaviestIsOffered(offered: seq<Edge>, key: Key)
    ensures
      match HeaviestAt(offered, key)
      case None => forall f :: f in offered ==> KeyOf(f) != key
      case Some(weight) =>
        Edge(key.source, key.target, weight, key.kind) in offered
        && forall f :: f in offered && KeyOf(f) == key ==> f.weight <= weight
  {
    if offered != [] {
      var (before, last) := (offered[..|offered| - 1], offered[|offered| - 1]);
      HeaviestIsOffered(before, key);
      assert forall f :: f in offered <==> f in before || f == last;
    }
  }

  // ----- The edges of a graph

  function Selected(rules: Rules, sources: seq<Lists>): seq<Edge> {
    Merged(Offered(rules, sources))
  }

  /** An edge is selected exactly when some list offers it and none offers a heavier one of its pair and kind. */
  lemma SelectedAreBest(rules: Rules, sources: seq<Lists>, e: Edge)
    ensures InOrder(Selected(rules, sources))
    ensures
      e in Selected(rules, sources)
      <==> Offers(rules, sources, e)
           && forall f :: Offers(rules, sources, f) && KeyOf(f) == KeyOf(e) ==> f.weight <= e.weight
  {
    var offered := Offered(rules, sources);
    MergedAt(offered, KeyOf(e));
    WeightAtIs(Merged(offered), e);
    HeaviestAtIs(offered, e);
    forall f
      ensures f in offered <==> Offers(rules, sources, f)
    {
      OfferedIs(rules, sources, f);
    }
  }

  /** The selected edges come by source, then target, then kind, and no two agree in all three. */
  lemma {:induction false} SelectedAreSorted(rules: Rules, sources: seq<Lists>, i: nat, j: nat)
    requires i < j < |Selected(rules, sources)|
    ensures
      var (e, f) := (Selected(rules, sources)[i], Selected(rules, sources)[j]);
      || e.source < f.source
      || (e.source == f.source && e.target < f.target)
      || (e.source == f.source && e.target == f.target && e.kind < f.kind)
  {
    var selected := Selected(rules, sources);
    MergedAt(Offered(rules, sources), KeyOf(selected[i]));
    assert Before(KeyOf(selected[i]), KeyOf(selected[j]));
  }

  /** Some source of the edge's kind lists each of its records for the other. */
  ghost predicate Mutual(sources: seq<Lists>, e: Edge) {
    exists lists :: lists in sources && lists.kind == e.kind
      && (exists row :: row in lists.rows && row.id == e.source && Mentions(row.list, e.target))
      && (exists row :: row in lists.rows && row.id == e.target && Mentions(row.list, e.source))
  }

  lemma {:induction false} MentionsHasRow(rows: seq<Row>, id: Id, other: Id)
    requires Mentions(ListOf(rows, id), other)
    ensures exists row :: row in rows && row.id == id && Mentions(row.list, other)
  {
    if rows != [] {
      if rows[0].id == id {
        assert rows[0] in rows;
      } else {
        MentionsHasRow(rows[1..], id, other);
      }
    }
  }

  lemma AdmittedKeepTheRules(rules: Rules, sources: seq<Lists>, lists: Lists, row: Row, near: Near, e: Edge)
    requires lists in sources && row in lists.rows && near in row.list
    requires Admits(rules, lists.rows, row.id, near) && e == EdgeTo(lists.kind, row.id, near)
    ensures e.source in rules.members && e.target in rules.members && e.source < e.target && e.weight >= rules.minWeight
    ensures rules.mutualOnly ==> Mutual(sources, e)
  {
    if rules.mutualOnly {
      assert Mentions(row.list, near.id);
      MentionsHasRow(lists.rows, near.id, row.id);
    }
  }

  /** No edge dangles, joins a record to itself or is too light, and mutual edges are listed both ways. */
  lemma SelectedKeepTheRules(rules: Rules, sources: seq<Lists>, e: Edge)
    requires e in Selected(rules, sources)
    ensures e.source in rules.members && e.target in rules.members && e.source < e.target && e.weight >= rules.minWeight
    ensures rules.mutualOnly ==> Mutual(sources, e)
  {
    SelectedAreBest(rules, sources, e);
    var lists :| lists in sources && RowsOffer(rules, lists, lists.rows, e);
    var row :| row in lists.rows && ListOffers(rules, lists, row.id, row.list, e);
    var near :| near in row.list && Admits(rules, lists.rows, row.id, near) && e == EdgeTo(lists.kind, row.id, near);
    AdmittedKeepTheRules(rules, sources, lists, row, near, e);
  }

  /** A record's list is that of its row, and empty without one. */
  lemma {:induction false} ListOfIs(rows: seq<Row>, id: Id)
    requires forall i, j :: 0 <= i < j < |rows| ==> rows[i].id != rows[j].id
    ensures forall row :: row in rows && row.id == id ==> ListOf(rows, id) == row.list
    ensures (forall row :: row in rows ==> row.id != id) ==> ListOf(rows, id) == []
  {
    if rows != [] {
      ListOfIs(rows[1..], id);
      assert rows[0] in rows;
      assert forall row :: row in rows <==> row == rows[0] || row in rows[1..];
    }
  }

  /** The edge joins the two records, whichever comes first. */
  ghost predicate Joins(e: Edge, one: Id, other: Id) {
    (e.source == one && e.target == other) || (e.source == other && e.target == one)
  }

  /**
   * Every neighbour a member lists gives an edge, as long as it is another member and near enough, and lists the record
   * too where mutual edges are asked for: an edge of the source's kind is selected for the two, as heavy or heavier.
   */
  lemma ListedAreSelected(rules: Rules, sources: seq<Lists>, lists: Lists, row: Row, near: Near) returns (e: Edge)
    requires lists in sources && row in lists.rows && near in row.list
    requires row.id in rules.members && near.id in rules.members && row.id != near.id && near.weight >= rules.minWeight
    requires rules.mutualOnly ==> Mentions(ListOf(lists.rows, near.id), row.id)
    ensures e in Selected(rules, sources) && e.kind == lists.kind && Joins(e, row.id, near.id) && e.weight >= near.weight
  {
    var (offered, own) := (Offered(rules, sources), EdgeTo(lists.kind, row.id, near));
    assert ListOffers(rules, lists, row.id, row.list, own);
    assert Offers(rules, sources, own);
    OfferedIs(rules, sources, own);
    HeaviestIsOffered(offered, KeyOf(own));
    e := own.(weight := HeaviestAt(offered, KeyOf(own)).value);
    MergedAt(offered, KeyOf(e));
    WeightAtIs(Merged(offered), e);
  }

  /** Chooses the edges: see `Selected`. */
  method SelectEdges(sources: seq<Lists>, rules: Rules) returns (edges: seq<Edge>)
    ensures edges == Selected(rules, sources)
  {
    edges := [];
    ghost var offered: seq<Edge> := [];
    for s := 0 to |sources|
      invariant offered == Offered(rules, sources[..s]) && edges == Merged(offered)
    {
      assert sources[..s + 1][..s] == sources[..s];
      edges, offered := MergeSource(edges, offered, rules, sources[s]);
    }
    assert sources[..|sources|] == sources;
  }

  lemma RowsGoOn(rules: Rules, lists: Lists, r: nat, offered: seq<Edge>, before: seq<Edge>, next: nat, after: seq<Edge>)
    requires r < |lists.rows| && next == r + 1 && before == offered + FromRows(rules, lists, lists.rows[..r])
    requires after == before + FromList(rules, lists, lists.rows[r].id, lists.rows[r].list)
    ensures after == offered + FromRows(rules, lists, lists.rows[..next])
  {
    assert lists.rows[..next][..r] == lists.rows[..r];
  }

  method MergeSource(edges: seq<Edge>, ghost offered: seq<Edge>, rules: Rules, lists: Lists)
    returns (merged: seq<Edge>, ghost more: seq<Edge>)
    requires edges == Merged(offered)
    ensures more == offered + FromRows(rules, lists, lists.rows) && merged == Merged(more)
  {
    merged, more := edges, offered;
    for r := 0 to |lists.rows|
      invariant more == offered + FromRows(rules, lists, lists.rows[..r]) && merged == Merged(more)
    {
      ghost var before := more;
      merged, more := MergeRow(merged, more, rules, lists, lists.rows[r]);
      RowsGoOn(rules, lists, r, offered, before, r + 1, more);
    }
    assert lists.rows[..|lists.rows|] == lists.rows;
  }

  method MergeRow(edges: seq<Edge>, ghost offered: seq<Edge>, rules: Rules, lists: Lists, row: Row)
    returns (merged: seq<Edge>, ghost more: seq<Edge>)
    requires edges == Merged(offered)
    ensures more == offered + FromList(rules, lists, row.id, row.list) && merged == Merged(more)
  {
    merged, more := edges, offered;
    if row.id !in rules.members {
      NothingFromOutside(rules, lists, row.id, row.list);
      return;
    }
    for i := 0 to |row.list|
      invariant more == offered + FromList(rules, lists, row.id, row.list[..i]) && merged == Merged(more)
    {
      assert row.list[..i + 1][..i] == row.list[..i];
      var near := row.list[i];
      if Admits(rules, lists.rows, row.id, near) {
        var e := EdgeTo(lists.kind, row.id, near);
        assert (more + [e])[..|more|] == more;
        merged, more := Merge(merged, e), more + [e];
      }
    }
    assert row.list[..|row.list|] == row.list;
  }

  lemma {:induction false} NothingFromOutside(rules: Rules, lists: Lists, id: Id, list: seq<Near>)
    requires id !in rules.members
    ensures FromList(rules, lists, id, list) == []
  {
    if list != [] {
      NothingFromOutside(rules, lists, id, list[..|list| - 1]);
    }
  }
}
