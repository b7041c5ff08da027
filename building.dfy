/**
 * What `init_components` builds from the adjacency lists, as values: the index of every
 * name (`_init_prices`), the stock and portfolio nodes (`_init_nodes`), and the result of
 * linking them along every declared edge (`_link_nodes`). The lemmas say when linking
 * succeeds and that its result is a graph the valuation walk can run over.
 */
module Building {
  import opened Wrappers
  import opened Adjacency
  import opened Linking
  import opened Valuation

  /** Every bucket key has an index below the number of merged keys. */
  lemma RefidxCovers(g: Lists)
    requires ListsOk(g)
    ensures Indexed(g, Enumerate(MergedKeys(g)))
    ensures forall k :: k in Enumerate(MergedKeys(g)) <==> k in MergedParents(g)
    ensures forall k :: k in Enumerate(MergedKeys(g)) ==> Enumerate(MergedKeys(g))[k] < |MergedKeys(g)|
  {
    MergedKeysSpec(g);
    EnumerateSpec(MergedKeys(g));
  }

  /** The stock nodes `_init_nodes` creates. */
  function BuiltStocks(g: Lists): map<string, StockNode>
    requires ListsOk(g)
  {
    RefidxCovers(g);
    NewStocks(g.stocks, Enumerate(MergedKeys(g)))
  }

  /** The portfolio nodes after `_link_nodes`, and the owner it raised `KeyError` on. */
  function Built(g: Lists): Linked
    requires ListsOk(g)
  {
    var refidx := Enumerate(MergedKeys(g));
    RefidxCovers(g);
    Link(NewPortfolios(g.portfolios, refidx), Edges(g, refidx))
  }

  /** Every parent in the merged view is the owner of some edge `_link_nodes` visits. */
  lemma EdgesCover(g: Lists, refidx: map<string, nat>)
    requires ListsOk(g) && Indexed(g, refidx)
    ensures forall k, i :: k in MergedParents(g) && 0 <= i < |MergedParents(g)[k]| ==>
      MergedParents(g)[k][i] in OwnersOf(Edges(g, refidx))
  {
    var se: seq<Edge> := BucketEdges(g.stocks, refidx, g.stocks.order);
    var pe: seq<Edge> := BucketEdges(g.portfolios, refidx, g.portfolios.order);
    BucketEdgesCover(g.stocks, refidx, g.stocks.order);
    BucketEdgesCover(g.portfolios, refidx, g.portfolios.order);
    OwnersOfAppend(se, pe);
    assert forall k :: k in g.portfolios.parents ==> MergedParents(g)[k] == g.portfolios.parents[k];
    assert forall k :: k in MergedParents(g) && k !in g.portfolios.parents ==> MergedParents(g)[k] == g.stocks.parents[k];
  }

  /** With no name in both buckets, every edge's owner is a parent in the merged view. */
  lemma EdgesOwners(g: Lists, refidx: map<string, nat>, owners: set<string>)
    requires ListsOk(g) && Indexed(g, refidx)
    requires forall k :: k in g.stocks.parents ==> k !in g.portfolios.parents
    requires forall k, i :: k in MergedParents(g) && 0 <= i < |MergedParents(g)[k]| ==> MergedParents(g)[k][i] in owners
    ensures forall i :: 0 <= i < |Edges(g, refidx)| ==> Edges(g, refidx)[i].owner in owners
  {
    var se: seq<Edge> := BucketEdges(g.stocks, refidx, g.stocks.order);
    var pe: seq<Edge> := BucketEdges(g.portfolios, refidx, g.portfolios.order);
    assert forall k :: k in g.stocks.parents ==> MergedParents(g)[k] == g.stocks.parents[k];
    assert forall k :: k in g.portfolios.parents ==> MergedParents(g)[k] == g.portfolios.parents[k];
    BucketEdgesOwners(g.stocks, refidx, g.stocks.order, owners);
    BucketEdgesOwners(g.portfolios, refidx, g.portfolios.order, owners);
    forall i | 0 <= i < |se + pe|
      ensures (se + pe)[i].owner in owners
    {
      if i >= |se| {
        assert (se + pe)[i] == pe[i - |se|];
      }
    }
  }

  /** After `fix_structure`, `_link_nodes` raises no `KeyError` exactly when every
      parent in the merged view is a portfolio. */
  lemma BuiltLinksIff(g: Lists)
    requires ListsOk(g)
    requires forall k :: k in g.stocks.parents ==> k !in g.portfolios.parents
    ensures Built(g).missing.None? <==>
      forall k, i :: k in MergedParents(g) && 0 <= i < |MergedParents(g)[k]| ==> MergedParents(g)[k][i] in g.portfolios.parents
  {
    var refidx := Enumerate(MergedKeys(g));
    RefidxCovers(g);
    var ports := NewPortfolios(g.portfolios, refidx);
    var edges := Edges(g, refidx);
    LinkMissing(ports, edges);
    if forall k, i :: k in MergedParents(g) && 0 <= i < |MergedParents(g)[k]| ==> MergedParents(g)[k][i] in g.portfolios.parents {
      EdgesOwners(g, refidx, g.portfolios.parents.Keys);
    }
    if Built(g).missing.None? {
      BuiltOwnersArePortfolios(g);
    }
  }

  /** Lists declared by `add_components_from` (every parent a declared container) always
      link once `fix_structure` has run. */
  lemma DeclaredGraphsLink(g: Lists)
    requires ListsOk(g) && OwnersDeclared(g)
    ensures Built(FixStructure(g)).missing.None?
  {
    FixStructureKeepsOwners(g);
    FixStructureSeparates(g);
    BuiltLinksIff(FixStructure(g));
  }

  /** Every edge's child index is below the given size when every index is. */
  lemma EdgesBounded(g: Lists, refidx: map<string, nat>, size: nat)
    requires ListsOk(g) && Indexed(g, refidx)
    requires forall k :: k in refidx ==> refidx[k] < size
    ensures forall i :: 0 <= i < |Edges(g, refidx)| ==> Edges(g, refidx)[i].child < size
  {
    var se: seq<Edge> := BucketEdges(g.stocks, refidx, g.stocks.order);
    var pe: seq<Edge> := BucketEdges(g.portfolios, refidx, g.portfolios.order);
    BucketEdgesBounded(g.stocks, refidx, g.stocks.order, 0, size);
    BucketEdgesBounded(g.portfolios, refidx, g.portfolios.order, 0, size);
    forall i | 0 <= i < |se + pe|
      ensures (se + pe)[i].child < size
    {
      if i >= |se| {
        assert (se + pe)[i] == pe[i - |se|];
      }
    }
  }

  /** The linked portfolios are keyed by name, fit the price array and have parallel
      `assets` and `weights`. */
  lemma BuiltNodesOk(g: Lists)
    requires ListsOk(g) && Built(g).missing.None?
    ensures forall q :: q in Built(g).ports <==> q in g.portfolios.parents
    ensures forall q :: q in Built(g).ports ==> Built(g).ports[q].name == q && NodeOk(Built(g).ports[q], |MergedKeys(g)|)
  {
    var refidx := Enumerate(MergedKeys(g));
    RefidxCovers(g);
    var size := |MergedKeys(g)|;
    var ports := NewPortfolios(g.portfolios, refidx);
    var edges := Edges(g, refidx);
    LinkContents(ports, edges);
    EdgesBounded(g, refidx, size);
    var r := Built(g).ports;
    forall q | q in r
      ensures r[q].name == q && NodeOk(r[q], size)
    {
      ChildrenQuantitiesLength(edges, q);
      ChildrenBounded(edges, q, 0, size);
      assert r[q].assets == Children(edges, q);
    }
  }

  /** When linking succeeds, every parent in the merged view is a portfolio. */
  lemma BuiltOwnersArePortfolios(g: Lists)
    requires ListsOk(g) && Built(g).missing.None?
    ensures forall k, i :: k in MergedParents(g) && 0 <= i < |MergedParents(g)[k]| ==> MergedParents(g)[k][i] in g.portfolios.parents
  {
    var refidx := Enumerate(MergedKeys(g));
    RefidxCovers(g);
    var ports := NewPortfolios(g.portfolios, refidx);
    var edges := Edges(g, refidx);
    LinkMissing(ports, edges);
    EdgesCover(g, refidx);
    forall k, i | k in MergedParents(g) && 0 <= i < |MergedParents(g)[k]|
      ensures MergedParents(g)[k][i] in g.portfolios.parents
    {
      var j :| 0 <= j < |edges| && edges[j].owner == MergedParents(g)[k][i];
      assert edges[j].owner in ports;
    }
  }

  /** A successful `init_components` leaves a graph the valuation walk can run over. */
  lemma BuiltTopologyOk(g: Lists)
    requires ListsOk(g) && Built(g).missing.None?
    ensures TopologyOk(Topology(Built(g).ports, MergedParents(g), |MergedKeys(g)|))
  {
    BuiltNodesOk(g);
    BuiltOwnersArePortfolios(g);
  }

  /** Every stock node is keyed by its name, fits a price array of `size` entries and
      has a parent list. */
  ghost predicate StocksOk(stocks: map<string, StockNode>, parents: map<string, seq<string>>, size: nat)
  {
    forall k :: k in stocks ==> stocks[k].name == k && stocks[k].refidx < size && k in parents
  }

  /** The stock nodes `_init_nodes` creates are the stock keys, and fit the price array. */
  lemma BuiltStocksOk(g: Lists)
    requires ListsOk(g)
    ensures forall k :: k in BuiltStocks(g) <==> k in g.stocks.parents
    ensures StocksOk(BuiltStocks(g), MergedParents(g), |MergedKeys(g)|)
  {
    RefidxCovers(g);
  }
}
