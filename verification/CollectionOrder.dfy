/** The order in which a discovery graph's records are collected (search/graph.py). */
module CollectionOrder {
  import opened Communities
  import opened EdgeSelection
  import opened DiscoveryGraph

  /**
   * The `i`-th record collected is the `at[i]`-th on the list of the `from[i]`-th, collected before it, and on the list of
   * none before that one.
   */
  ghost predicate TakenFrom(sources: seq<Source>, params: Params, nodes: seq<Id>, from: seq<nat>, at: seq<nat>, i: nat)
    requires i < |nodes| == |from| == |at|
  {
    && from[i] < i && IsEntry(Drawn(sources, params, nodes[from[i]]), at[i], nodes[i])
    && forall m :: 0 <= m < from[i] ==> !Mentions(Drawn(sources, params, nodes[m]), nodes[i])
  }

  ghost predicate IsEntry(list: seq<Near>, at: nat, id: Id) {
    at < |list| && list[at].id == id
  }

  predicate Sooner(from: nat, at: nat, laterFrom: nat, laterAt: nat) {
    from < laterFrom || (from == laterFrom && at < laterAt)
  }

  /** Every record but the seed is taken from the first list it is on, list by list and each from its front. */
  ghost predicate TakenInTurn(sources: seq<Source>, params: Params, nodes: seq<Id>, from: seq<nat>, at: seq<nat>) {
    && |nodes| == |from| == |at|
    && (forall i :: 0 < i < |nodes| ==> TakenFrom(sources, params, nodes, from, at, i))
    && forall i, j :: 0 < i < j < |nodes| ==> Sooner(from[i], at[i], from[j], at[j])
  }

  /** So far the lists of the first `p` records were taken whole, and of the next one its first `q` entries. */
  ghost predicate TakenUpTo(sources: seq<Source>, params: Params, nodes: seq<Id>, from: seq<nat>, at: seq<nat>, p: nat, q: nat) {
    && TakenInTurn(sources, params, nodes, from, at) && p <= |nodes|
    && AllSooner(from, at, p, q) && ListsTaken(sources, params, nodes, p)
  }

  ghost predicate AllSooner(from: seq<nat>, at: seq<nat>, p: nat, q: nat)
    requires |from| == |at|
  {
    forall i :: 0 < i < |from| ==> Sooner(from[i], at[i], p, q)
  }

  ghost predicate ListsTaken(sources: seq<Source>, params: Params, nodes: seq<Id>, p: nat)
    requires p <= |nodes|
  {
    forall m :: 0 <= m < p ==> AllTaken(nodes, Drawn(sources, params, nodes[m]))
  }

  ghost predicate AllTaken(nodes: seq<Id>, list: seq<Near>) {
    forall t :: 0 <= t < |list| ==> list[t].id in nodes
  }

  lemma {:induction false} TakenStays(sources: seq<Source>, params: Params, nodes: seq<Id>, from: seq<nat>, at: seq<nat>, i: nat,
                   more: seq<Id>, moreFrom: seq<nat>, moreAt: seq<nat>)
    requires i < |nodes| == |from| == |at| && TakenFrom(sources, params, nodes, from, at, i)
    requires nodes <= more && from <= moreFrom && at <= moreAt && |more| == |moreFrom| == |moreAt|
    ensures TakenFrom(sources, params, more, moreFrom, moreAt, i)
  {
    assert forall m :: 0 <= m < from[i] ==> more[m] == nodes[m];
  }

  lemma {:induction false} NewIsTaken(sources: seq<Source>, params: Params, nodes: seq<Id>, from: seq<nat>, at: seq<nat>, p: nat, q: nat, id: Id,
                   more: seq<Id>, moreFrom: seq<nat>, moreAt: seq<nat>)
    requires TakenUpTo(sources, params, nodes, from, at, p, q) && p < |nodes| && q < |Drawn(sources, params, nodes[p])|
    requires id == Drawn(sources, params, nodes[p])[q].id && id !in nodes
    requires more == nodes + [id] && moreFrom == from + [p] && moreAt == at + [q]
    ensures TakenFrom(sources, params, more, moreFrom, moreAt, |nodes|)
  {
    forall m | 0 <= m < p
      ensures !Mentions(Drawn(sources, params, more[m]), id)
    {
      assert AllTaken(nodes, Drawn(sources, params, nodes[m]));
    }
  }

  lemma {:induction false} OneMoreIsTaken(sources: seq<Source>, params: Params, nodes: seq<Id>, from: seq<nat>, at: seq<nat>,
                                          p: nat, q: nat, id: Id, more: seq<Id>, moreFrom: seq<nat>, moreAt: seq<nat>, next: nat)
    requires TakenUpTo(sources, params, nodes, from, at, p, q) && p < |nodes| && q < |Drawn(sources, params, nodes[p])|
    requires id == Drawn(sources, params, nodes[p])[q].id && id !in nodes && next == q + 1
    requires more == nodes + [id] && moreFrom == from + [p] && moreAt == at + [q]
    ensures TakenUpTo(sources, params, more, moreFrom, moreAt, p, next)
  {
    NewIsTaken(sources, params, nodes, from, at, p, q, id, more, moreFrom, moreAt);
    forall i | 0 < i < |nodes|
      ensures TakenFrom(sources, params, more, moreFrom, moreAt, i)
    {
      TakenStays(sources, params, nodes, from, at, i, more, moreFrom, moreAt);
    }
    forall m | 0 <= m < p
      ensures AllTaken(more, Drawn(sources, params, more[m]))
    {
      assert AllTaken(nodes, Drawn(sources, params, nodes[m]));
    }
  }

  lemma {:induction false} AddNewGoesOn(nodes: seq<Id>, drawn: seq<Near>, last: nat, q: nat, before: seq<Id>, id: Id)
    requires q == last + 1 <= |drawn| && before == AddNew(nodes, drawn[..last]) && id == drawn[last].id
    ensures AddNew(nodes, drawn[..q]) == if id in before then before else before + [id]
  {
    assert drawn[..q][..last] == drawn[..last];
  }

  lemma {:induction false} NextEntry(sources: seq<Source>, params: Params, nodes: seq<Id>, from: seq<nat>, at: seq<nat>, p: nat, q: nat,
                                     next: nat)
    requires TakenUpTo(sources, params, nodes, from, at, p, q) && next == q + 1
    ensures TakenUpTo(sources, params, nodes, from, at, p, next)
  {
    assert AllSooner(from, at, p, next);
  }

  lemma {:induction false} TakenOneMore(drawn: seq<Near>, last: nat, q: nat, before: seq<Id>, more: seq<Id>)
    requires q == last + 1 <= |drawn| && AllTaken(before, drawn[..last])
    requires more == if drawn[last].id in before then before else before + [drawn[last].id]
    ensures AllTaken(more, drawn[..q])
  {
  }

  /** Adding a list's new entries takes them in turn. */
  lemma {:induction false} ListIsTaken(sources: seq<Source>, params: Params, nodes: seq<Id>, from: seq<nat>, at: seq<nat>,
                                       p: nat, drawn: seq<Near>, q: nat, more: seq<Id>)
    returns (moreFrom: seq<nat>, moreAt: seq<nat>)
    requires TakenUpTo(sources, params, nodes, from, at, p, 0) && p < |nodes| && drawn == Drawn(sources, params, nodes[p])
    requires q <= |drawn| && more == AddNew(nodes, drawn[..q])
    ensures nodes <= more && TakenUpTo(sources, params, more, moreFrom, moreAt, p, q) && AllTaken(more, drawn[..q])
  {
    if q == 0 {
      moreFrom, moreAt := from, at;
    } else {
      var last := q - 1;
      var (before, id) := (AddNew(nodes, drawn[..last]), drawn[last].id);
      moreFrom, moreAt := ListIsTaken(sources, params, nodes, from, at, p, drawn, last, before);
      AddNewGoesOn(nodes, drawn, last, q, before, id);
      TakenOneMore(drawn, last, q, before, more);
      moreFrom, moreAt := EntryIsTaken(sources, params, before, moreFrom, moreAt, p, drawn, last, more, q);
    }
  }

  lemma {:induction false} EntryIsTaken(sources: seq<Source>, params: Params, nodes: seq<Id>, from: seq<nat>, at: seq<nat>,
                                        p: nat, drawn: seq<Near>, q: nat, more: seq<Id>, next: nat)
    returns (moreFrom: seq<nat>, moreAt: seq<nat>)
    requires TakenUpTo(sources, params, nodes, from, at, p, q) && p < |nodes| && drawn == Drawn(sources, params, nodes[p])
    requires q < |drawn| && next == q + 1
    requires more == if drawn[q].id in nodes then nodes else nodes + [drawn[q].id]
    ensures TakenUpTo(sources, params, more, moreFrom, moreAt, p, next)
  {
    if drawn[q].id in nodes {
      moreFrom, moreAt := from, at;
      NextEntry(sources, params, nodes, from, at, p, q, next);
    } else {
      moreFrom, moreAt := from + [p], at + [q];
      OneMoreIsTaken(sources, params, nodes, from, at, p, q, drawn[q].id, more, moreFrom, moreAt, next);
    }
  }

  lemma {:induction false} NextList(sources: seq<Source>, params: Params, nodes: seq<Id>, from: seq<nat>, at: seq<nat>, p: nat,
                                    drawn: seq<Near>, next: nat)
    requires p < |nodes| && drawn == Drawn(sources, params, nodes[p]) && next == p + 1
    requires TakenUpTo(sources, params, nodes, from, at, p, |drawn|) && AllTaken(nodes, drawn)
    ensures TakenUpTo(sources, params, nodes, from, at, next, 0)
  {
    SoonerThanNext(from, at, p, |drawn|, next);
    OneMoreList(sources, params, nodes, p, next);
  }

  lemma {:induction false} SoonerThanNext(from: seq<nat>, at: seq<nat>, p: nat, q: nat, next: nat)
    requires |from| == |at| && AllSooner(from, at, p, q) && next == p + 1
    ensures AllSooner(from, at, next, 0)
  {
  }

  lemma {:induction false} OneMoreList(sources: seq<Source>, params: Params, nodes: seq<Id>, p: nat, next: nat)
    requires p < |nodes| && next == p + 1 && ListsTaken(sources, params, nodes, p)
    requires AllTaken(nodes, Drawn(sources, params, nodes[p]))
    ensures ListsTaken(sources, params, nodes, next)
  {
    forall m | 0 <= m < next
      ensures AllTaken(nodes, Drawn(sources, params, nodes[m]))
    {
      assert m < p || m == p;
    }
  }

  lemma {:induction false} FrontierGoesOn(sources: seq<Source>, params: Params, nodes: seq<Id>, frontier: seq<Id>, last: nat, f: nat,
                                          before: seq<Id>, drawn: seq<Near>)
    requires f == last + 1 <= |frontier| && before == LevelOf(sources, params, nodes, frontier[..last])
    requires drawn == Drawn(sources, params, frontier[last])
    ensures LevelOf(sources, params, nodes, frontier[..f]) == AddNew(before, drawn)
  {
    assert frontier[..f][..last] == frontier[..last];
  }

  lemma {:induction false} LevelIsTaken(sources: seq<Source>, params: Params, nodes: seq<Id>, from: seq<nat>, at: seq<nat>,
                                        lo: nat, frontier: seq<Id>, f: nat, p: nat, more: seq<Id>)
    returns (moreFrom: seq<nat>, moreAt: seq<nat>)
    requires lo <= |nodes| && frontier == nodes[lo..] && TakenUpTo(sources, params, nodes, from, at, lo, 0)
    requires f <= |frontier| && p == lo + f && more == LevelOf(sources, params, nodes, frontier[..f])
    ensures nodes <= more && TakenUpTo(sources, params, more, moreFrom, moreAt, p, 0)
    decreases f
  {
    if f == 0 {
      moreFrom, moreAt := from, at;
    } else {
      var (last, one) := (f - 1, p - 1);
      var before := LevelOf(sources, params, nodes, frontier[..last]);
      moreFrom, moreAt := LevelIsTaken(sources, params, nodes, from, at, lo, frontier, last, one, before);
      assert frontier[last] == nodes[one] == before[one];
      var drawn := Drawn(sources, params, before[one]);
      FrontierGoesOn(sources, params, nodes, frontier, last, f, before, drawn);
      assert drawn[..|drawn|] == drawn;
      moreFrom, moreAt := ListIsTaken(sources, params, before, moreFrom, moreAt, one, drawn, |drawn|, more);
      NextList(sources, params, more, moreFrom, moreAt, one, drawn, p);
    }
  }

  lemma {:induction false} GrowthIsTaken(sources: seq<Source>, params: Params, nodes: seq<Id>, from: seq<nat>, at: seq<nat>,
                                         lo: nat, left: nat)
    returns (moreFrom: seq<nat>, moreAt: seq<nat>)
    requires lo <= |nodes| && TakenUpTo(sources, params, nodes, from, at, lo, 0)
    ensures TakenInTurn(sources, params, BreadthFirst(sources, params, nodes, lo, left), moreFrom, moreAt)
    decreases left
  {
    moreFrom, moreAt := from, at;
    if left > 0 && lo < |nodes| {
      var frontier := nodes[lo..];
      var level := LevelOf(sources, params, nodes, frontier);
      assert frontier[..|frontier|] == frontier;
      moreFrom, moreAt := LevelIsTaken(sources, params, nodes, from, at, lo, frontier, |frontier|, |nodes|, level);
      var less := left - 1;
      moreFrom, moreAt := GrowthIsTaken(sources, params, level, moreFrom, moreAt, |nodes|, less);
    }
  }

  lemma {:induction false} CutIsTaken(sources: seq<Source>, params: Params, nodes: seq<Id>, from: seq<nat>, at: seq<nat>, most: nat)
    returns (fewerFrom: seq<nat>, fewerAt: seq<nat>)
    requires TakenInTurn(sources, params, nodes, from, at)
    ensures TakenInTurn(sources, params, Cut(nodes, most), fewerFrom, fewerAt)
  {
    var cut := Cut(nodes, most);
    fewerFrom, fewerAt := from[..|cut|], at[..|cut|];
    forall i | 0 < i < |cut|
      ensures TakenFrom(sources, params, cut, fewerFrom, fewerAt, i)
    {
      assert TakenFrom(sources, params, nodes, from, at, i);
      assert forall m :: 0 <= m < from[i] ==> cut[m] == nodes[m];
    }
  }

  /**
   * Records are collected breadth first: each but the seed from the list of the first collected record that draws it, the
   * lists in the order their records were collected in, and each list from its nearest on.
   */
  lemma {:induction false} CollectedInTurn(seed: Id, sources: seq<Source>, params: Params) returns (from: seq<nat>, at: seq<nat>)
    ensures TakenInTurn(sources, params, Cut(BreadthFirst(sources, params, [seed], 0, params.depth), params.maxNodes), from, at)
  {
    from, at := GrowthIsTaken(sources, params, [seed], [0], [0], 0, params.depth);
    from, at := CutIsTaken(sources, params, BreadthFirst(sources, params, [seed], 0, params.depth), from, at, params.maxNodes);
  }
}
