/**
 * The `AssetGraph` object: the adjacency lists it fills while reading portfolio
 * declarations, the price array and node maps `init_components` creates, and the
 * valuation entry points that change prices in place. Each method is proved against
 * the function over values that describes it (modules Adjacency, Linking, Building,
 * Valuation). A node object's `graph` proxy is replaced by the graph itself: nodes are
 * values in the graph's maps and every node method is a graph method taking a name.
 */
module PortfolioTool {
  import opened Wrappers
  import opened Adjacency
  import opened Linking
  import opened Building
  import opened Valuation

  /** The inner loop of `update_parent_values`: every parent not yet visited is
      appended to both `visited` and `queue`. */
  method Enqueue(parents: seq<string>, visited: seq<string>, queue: seq<string>) returns (visited': seq<string>, queue': seq<string>)
    ensures visited' == visited + Fresh(parents, visited)
    ensures queue' == queue + Fresh(parents, visited)
  {
    visited', queue' := visited, queue;
    for j := 0 to |parents|
      invariant visited' + Fresh(parents[j..], visited') == visited + Fresh(parents, visited)
      invariant queue' + Fresh(parents[j..], visited') == queue + Fresh(parents, visited)
    {
      var parent := parents[j];
      assert parents[j..][0] == parent && parents[j..][1..] == parents[j + 1..];
      if parent !in visited' {
        visited' := visited' + [parent];
        queue' := queue' + [parent];
      }
    }
    assert parents[|parents|..] == [];
  }

  class AssetGraph {
    // adj_list_parents_stocks and adj_list_parents_stock_weights, with their key order
    var stockOrder: seq<string>
    var stockParents: map<string, seq<string>>
    var stockWeights: map<string, seq<real>>
    // adj_list_parents_portfolios and adj_list_parents_portfolio_weights
    var portOrder: seq<string>
    var portParents: map<string, seq<string>>
    var portWeights: map<string, seq<real>>
    // the node objects
    var stocks: map<string, StockNode>
    var portfolios: map<string, PortfolioNode>
    // all_refidx and all_prices (NaN is None)
    var allRefidx: map<string, nat>
    var allPrices: array<Option<real>>
    // the `name,price` lines printed by the price setter
    var events: seq<Event>

    /** The adjacency lists as a value. */
    function Declared(): Lists
      reads this`stockOrder, this`stockParents, this`stockWeights, this`portOrder, this`portParents, this`portWeights
    {
      Lists(Bucket(stockOrder, stockParents, stockWeights), Bucket(portOrder, portParents, portWeights))
    }

    ghost predicate Valid()
      reads this`stockOrder, this`stockParents, this`stockWeights, this`portOrder, this`portParents, this`portWeights
    {
      ListsOk(Declared())
    }

    /** What the valuation walk reads: the portfolio nodes, `merged_view[0]`, the
        length of the price array. */
    function Graph(): Topology
      reads this`stockOrder, this`stockParents, this`stockWeights, this`portOrder, this`portParents, this`portWeights
      reads this`portfolios, this`allPrices
    {
      Topology(portfolios, MergedParents(Declared()), allPrices.Length)
    }

    /** The state after a successful `init_components`. */
    ghost predicate Ready()
      reads this`stockOrder, this`stockParents, this`stockWeights, this`portOrder, this`portParents, this`portWeights
      reads this`portfolios, this`stocks, this`allPrices
    {
      && Valid()
      && TopologyOk(Graph())
      && StocksOk(stocks, MergedParents(Declared()), allPrices.Length)
    }

    /** `AssetGraph()`: empty adjacency lists and no nodes. */
    constructor()
      ensures Valid() && Declared() == NoLists
      ensures stocks == map[] && portfolios == map[] && events == []
    {
      stockOrder, stockParents, stockWeights := [], map[], map[];
      portOrder, portParents, portWeights := [], map[], map[];
      stocks, portfolios := map[], map[];
      allRefidx := map[];
      allPrices := new Option<real>[0];
      events := [];
      NoListsOk();
    }

    /** `add_component(name, qty, parent)`; `Some(AssertionError)` when the assert fails. */
    method AddComponent(name: string, qty: Option<real>, parent: Option<string>) returns (err: Option<BuildError>)
      requires Valid()
      modifies this`stockOrder, this`stockParents, this`stockWeights, this`portOrder, this`portParents, this`portWeights
      ensures Valid()
      ensures var r := Adjacency.AddComponent(old(Declared()), name, qty, parent);
        && (r.None? ==> err == Some(AssertionError) && Declared() == old(Declared()))
        && (r.Some? ==> err == None && Declared() == r.value)
    {
      ghost var r := Adjacency.AddComponent(Declared(), name, qty, parent);
      if parent.None? == qty.Some? {
        return Some(AssertionError);
      }
      if parent.Some? {
        if name in stockParents {
          stockParents := stockParents[name := stockParents[name] + [parent.value]];
          stockWeights := stockWeights[name := stockWeights[name] + [qty.value]];
        } else {
          stockOrder := stockOrder + [name];
          stockParents := stockParents[name := [parent.value]];
          stockWeights := stockWeights[name := [qty.value]];
        }
      } else if name !in portParents {
        portOrder := portOrder + [name];
        portParents := portParents[name := []];
        portWeights := portWeights[name := []];
      }
      assert Declared() == r.value;
      err := None;
    }

    /** `add_components_from(records)`: declares every record until one raises.
        `parse` is `float()` on a quantity text (`None` when it raises). */
    method AddComponentsFrom(records: seq<seq<string>>, parse: string -> Option<real>) returns (err: Option<BuildError>)
      requires Valid()
      modifies this`stockOrder, this`stockParents, this`stockWeights, this`portOrder, this`portParents, this`portWeights
      ensures Valid()
      ensures var d := Declare(old(Declared()), "", records, parse);
        Declared() == d.lists && err == d.err
    {
      var portfolioName := "";
      for i := 0 to |records|
        invariant Valid()
        invariant Declare(Declared(), portfolioName, records[i..], parse) == Declare(old(Declared()), "", records, parse)
      {
        var items := records[i];
        assert records[i..][0] == items && records[i..][1..] == records[i + 1..];
        if |items| == 0 {
          return Some(IndexError);
        }
        if |items| == 1 || |items[1]| == 0 {
          portfolioName := items[0];
          var _ := AddComponent(portfolioName, None, None);
        } else if |items| == 2 {
          var ticker, quantity := items[0], items[1];
          if IsHeaderRow(ticker, quantity) {
            continue;
          }
          if portfolioName != "" {
            var q := parse(quantity);
            if q.None? {
              return Some(BadQuantity(quantity));
            }
            var _ := AddComponent(ticker, q, Some(portfolioName));
          } else {
            return Some(NoContainer);
          }
        } else {
          return Some(TooManyFields);
        }
      }
      assert records[|records|..] == [];
      err := None;
    }

    /** `fix_structure()`: every stock key that is also a portfolio key has its lists
        moved to the portfolio bucket. */
    method FixStructure()
      requires Valid()
      modifies this`stockOrder, this`stockParents, this`stockWeights, this`portOrder, this`portParents, this`portWeights
      ensures Valid()
      ensures Declared() == Adjacency.FixStructure(old(Declared()))
    {
      var toMove := ToMove(stockOrder, portParents);
      MovingStart(Declared());
      assert toMove[0..] == toMove;
      for i := 0 to |toMove|
        invariant Moving(Declared(), toMove[i..], Adjacency.FixStructure(old(Declared())))
      {
        var node := toMove[i];
        ghost var before := Declared();
        ghost var target := Adjacency.FixStructure(old(Declared()));
        assert toMove[i..][0] == node && toMove[i..][1..] == toMove[i + 1..];
        MovingHead(before, toMove[i..], target);
        MoveNode(node);
        MovingStep(before, toMove[i..], target);
      }
      assert toMove[|toMove|..] == [];
      MovingDone(Declared(), Adjacency.FixStructure(old(Declared())));
    }

    /** One iteration of the `fix_structure` loop: pops the name's stock lists and
        extends its portfolio lists with them. */
    method MoveNode(node: string)
      requires Present(Declared(), node)
      modifies this`stockOrder, this`stockParents, this`stockWeights, this`portParents, this`portWeights
      ensures Declared() == Move(old(Declared()), node)
    {
      var parents := stockParents[node];
      stockParents := stockParents - {node};
      stockOrder := Without(stockOrder, [node]);
      var parentWeights := stockWeights[node];
      stockWeights := stockWeights - {node};
      portParents := portParents[node := portParents[node] + parents];
      portWeights := portWeights[node := portWeights[node] + parentWeights];
    }

    /** `_init_prices()`: one unknown price per merged key, and each key's index. */
    method InitPrices()
      modifies this`allPrices, this`allRefidx
      ensures fresh(allPrices)
      ensures allPrices.Length == |MergedKeys(Declared())|
      ensures forall i :: 0 <= i < allPrices.Length ==> allPrices[i] == None
      ensures allRefidx == Enumerate(MergedKeys(Declared()))
    {
      var keys := MergedKeys(Declared());
      allPrices := new Option<real>[|keys|](_ => None);
      allRefidx := Enumerate(keys);
    }

    /** `_init_nodes()`: a stock node per stock key and an empty portfolio node per
        portfolio key, each with its index. */
    method InitNodes()
      requires Indexed(Declared(), allRefidx)
      modifies this`stocks, this`portfolios
      ensures stocks == NewStocks(Declared().stocks, allRefidx)
      ensures portfolios == NewPortfolios(Declared().portfolios, allRefidx)
    {
      InitStockNodes();
      InitPortfolioNodes();
    }

    /** The first loop of `_init_nodes`. */
    method InitStockNodes()
      requires Indexed(Declared(), allRefidx)
      modifies this`stocks
      ensures stocks == NewStocks(Declared().stocks, allRefidx)
    {
      stocks := map[];
      for i := 0 to |stockOrder|
        invariant stocks == map k | k in stockOrder[..i] :: StockNode(k, allRefidx[k])
      {
        var name := stockOrder[i];
        assert stockOrder[..i + 1] == stockOrder[..i] + [name];
        stocks := stocks[name := StockNode(name, allRefidx[name])];
      }
      assert stockOrder[..|stockOrder|] == stockOrder;
    }

    /** The second loop of `_init_nodes`. */
    method InitPortfolioNodes()
      requires Indexed(Declared(), allRefidx)
      modifies this`portfolios
      ensures portfolios == NewPortfolios(Declared().portfolios, allRefidx)
    {
      portfolios := map[];
      for i := 0 to |portOrder|
        invariant portfolios == map k | k in portOrder[..i] :: PortfolioNode(k, allRefidx[k], [], [])
      {
        var name := portOrder[i];
        assert portOrder[..i + 1] == portOrder[..i] + [name];
        portfolios := portfolios[name := PortfolioNode(name, allRefidx[name], [], [])];
      }
      assert portOrder[..|portOrder|] == portOrder;
    }

    /** The inner loop of `_link_nodes` for one child: appends the child to each of its
        owners, in `zip` order; names the first owner that is not a portfolio. */
    method LinkChild(child: nat, owners: seq<string>, ws: seq<real>) returns (missing: Option<string>)
      modifies this`portfolios
      ensures Linked(portfolios, missing) == Link(old(portfolios), ChildEdges(child, owners, ws))
    {
      var j := 0;
      while j < |owners| && j < |ws|
        invariant j <= |owners| && j <= |ws|
        invariant Link(portfolios, ChildEdges(child, owners[j..], ws[j..])) == Link(old(portfolios), ChildEdges(child, owners, ws))
      {
        var owner, w := owners[j], ws[j];
        assert owners[j..][0] == owner && owners[j..][1..] == owners[j + 1..];
        assert ws[j..][0] == w && ws[j..][1..] == ws[j + 1..];
        if owner !in portfolios {
          return Some(owner);
        }
        var p := portfolios[owner];
        portfolios := portfolios[owner := p.(weights := p.weights + [w], assets := p.assets + [child])];
        j := j + 1;
      }
      missing := None;
    }

    /** `_link_nodes()`: every stock, then every portfolio, is appended to its owners;
        `KeyError` on the first owner that is not a portfolio. */
    method LinkNodes() returns (err: Option<BuildError>)
      requires Indexed(Declared(), allRefidx)
      requires stocks == NewStocks(Declared().stocks, allRefidx)
      requires portfolios == NewPortfolios(Declared().portfolios, allRefidx)
      modifies this`portfolios
      ensures var r := Link(old(portfolios), Edges(Declared(), allRefidx));
        portfolios == r.ports && err == if r.missing.Some? then Some(KeyError(r.missing.value)) else None
    {
      ghost var se := BucketEdges(Declared().stocks, allRefidx, stockOrder);
      ghost var pe := BucketEdges(Declared().portfolios, allRefidx, portOrder);
      LinkAppend(portfolios, se, pe);
      LinkKeepsIndices(portfolios, se);
      var missing := LinkStocks();
      if missing.Some? {
        return Some(KeyError(missing.value));
      }
      missing := LinkPortfolios();
      err := if missing.Some? then Some(KeyError(missing.value)) else None;
    }

    /** The first loop of `_link_nodes`: each stock is appended to its owners. */
    method LinkStocks() returns (missing: Option<string>)
      requires Indexed(Declared(), allRefidx)
      requires stocks == NewStocks(Declared().stocks, allRefidx)
      modifies this`portfolios
      ensures Linked(portfolios, missing) == Link(old(portfolios), BucketEdges(Declared().stocks, allRefidx, stockOrder))
    {
      assert stockOrder[0..] == stockOrder;
      for i := 0 to |stockOrder|
        invariant Link(portfolios, BucketEdges(Declared().stocks, allRefidx, stockOrder[i..])) ==
          Link(old(portfolios), BucketEdges(Declared().stocks, allRefidx, stockOrder))
      {
        var name := stockOrder[i];
        var stock := stocks[name];
        assert stockOrder[i..][0] == name && stockOrder[i..][1..] == stockOrder[i + 1..];
        LinkAppend(portfolios, ChildEdges(stock.refidx, stockParents[name], stockWeights[name]),
                   BucketEdges(Declared().stocks, allRefidx, stockOrder[i + 1..]));
        missing := LinkChild(stock.refidx, stockParents[name], stockWeights[name]);
        if missing.Some? {
          return;
        }
      }
      assert stockOrder[|stockOrder|..] == [];
      missing := None;
    }

    /** The second loop of `_link_nodes`: each portfolio is appended to its owners. */
    method LinkPortfolios() returns (missing: Option<string>)
      requires Indexed(Declared(), allRefidx)
      requires forall k :: k in portOrder ==> k in portfolios && portfolios[k].refidx == allRefidx[k]
      modifies this`portfolios
      ensures Linked(portfolios, missing) == Link(old(portfolios), BucketEdges(Declared().portfolios, allRefidx, portOrder))
    {
      assert portOrder[0..] == portOrder;
      for i := 0 to |portOrder|
        invariant forall k :: k in portOrder ==> k in portfolios && portfolios[k].refidx == allRefidx[k]
        invariant Link(portfolios, BucketEdges(Declared().portfolios, allRefidx, portOrder[i..])) ==
          Link(old(portfolios), BucketEdges(Declared().portfolios, allRefidx, portOrder))
      {
        var name := portOrder[i];
        var portfolio := portfolios[name];
        assert portOrder[i..][0] == name && portOrder[i..][1..] == portOrder[i + 1..];
        LinkAppend(portfolios, ChildEdges(portfolio.refidx, portParents[name], portWeights[name]),
                   BucketEdges(Declared().portfolios, allRefidx, portOrder[i + 1..]));
        LinkKeepsIndices(portfolios, ChildEdges(portfolio.refidx, portParents[name], portWeights[name]));
        missing := LinkChild(portfolio.refidx, portParents[name], portWeights[name]);
        if missing.Some? {
          return;
        }
      }
      assert portOrder[|portOrder|..] == [];
      missing := None;
    }

    /** `init_components()`: `fix_structure`, then the price array, the nodes and their
        links. Lists built by `add_components_from` always link. */
    method InitComponents() returns (err: Option<BuildError>)
      requires Valid()
      modifies this`stockOrder, this`stockParents, this`stockWeights, this`portOrder, this`portParents, this`portWeights
      modifies this`stocks, this`portfolios, this`allRefidx, this`allPrices
      ensures Valid() && Declared() == Adjacency.FixStructure(old(Declared()))
      ensures fresh(allPrices) && allPrices.Length == |MergedKeys(Declared())|
      ensures forall i :: 0 <= i < allPrices.Length ==> allPrices[i] == None
      ensures allRefidx == Enumerate(MergedKeys(Declared()))
      ensures stocks == BuiltStocks(Declared())
      ensures portfolios == Built(Declared()).ports
      ensures err == if Built(Declared()).missing.Some? then Some(KeyError(Built(Declared()).missing.value)) else None
      ensures err == None ==> Ready()
      ensures OwnersDeclared(old(Declared())) ==> err == None
    {
      ghost var declared := Declared();
      FixStructure();
      err := Build(Declared());
      if err == None {
        BuiltReady(Declared());
      }
      if OwnersDeclared(declared) {
        DeclaredGraphsLink(declared);
      }
    }

    /** The part of `init_components` after `fix_structure`, on the lists `g`. */
    method Build(ghost g: Lists) returns (err: Option<BuildError>)
      requires Declared() == g && ListsOk(g)
      modifies this`stocks, this`portfolios, this`allRefidx, this`allPrices
      ensures Declared() == g
      ensures fresh(allPrices) && allPrices.Length == |MergedKeys(g)|
      ensures forall i :: 0 <= i < allPrices.Length ==> allPrices[i] == None
      ensures allRefidx == Enumerate(MergedKeys(g))
      ensures stocks == BuiltStocks(g)
      ensures portfolios == Built(g).ports
      ensures err == if Built(g).missing.Some? then Some(KeyError(Built(g).missing.value)) else None
    {
      InitPrices();
      err := BuildNodes(g);
    }

    /** `_init_nodes` and `_link_nodes` on the lists `g`, once `_init_prices` has run. */
    method BuildNodes(ghost g: Lists) returns (err: Option<BuildError>)
      requires Declared() == g && ListsOk(g) && allRefidx == Enumerate(MergedKeys(g))
      modifies this`stocks, this`portfolios
      ensures stocks == BuiltStocks(g)
      ensures portfolios == Built(g).ports
      ensures err == if Built(g).missing.Some? then Some(KeyError(Built(g).missing.value)) else None
    {
      RefidxCovers(g);
      InitNodes();
      err := LinkNodes();
    }

    /** A graph whose nodes are those built from `g` and whose links all succeeded is
        ready for valuation. */
    lemma BuiltReady(g: Lists)
      requires Declared() == g && ListsOk(g) && Built(g).missing.None?
      requires allPrices.Length == |MergedKeys(g)| && stocks == BuiltStocks(g) && portfolios == Built(g).ports
      ensures Ready()
    {
      BuiltStocksOk(g);
      BuiltTopologyOk(g);
    }

    /** The `price` setter of a node: writes and prints only a changed price (NaN is
        never equal, so writing NaN over NaN prints again). */
    method WritePrice(name: string, idx: nat, value: Option<real>)
      requires idx < allPrices.Length
      modifies allPrices, this`events
      ensures var w := SetPrice(old(allPrices[..]), name, idx, value);
        allPrices[..] == w.prices && events == old(events) + w.events
    {
      if Differs(allPrices[idx], value) {
        allPrices[idx] := value;
        events := events + [Event(name, value)];
      }
    }

    /** `Portfolio.update_value(value_difference)` of the portfolio called `name`. */
    method PortfolioUpdateValue(name: string, diff: Option<real>) returns (ok: bool)
      requires name in portfolios && NodeOk(portfolios[name], allPrices.Length)
      modifies allPrices, this`events
      ensures var u := UpdateValue(portfolios[name], diff, old(allPrices[..]));
        ok == u.ok && allPrices[..] == u.prices && events == old(events) + u.events
    {
      var p := portfolios[name];
      var current := allPrices[p.refidx];
      if current.Some? && diff.Some? {
        WritePrice(p.name, p.refidx, Some(current.value + diff.value));
        return true;
      }
      var px := AssetPrices(allPrices[..], p.assets);
      if !AllKnown(px) {
        return false;
      }
      WritePrice(p.name, p.refidx, Some(Dot(Values(px), p.weights)));
      ok := true;
    }

    /** `update_parent_values(value_difference)` from the node called `start`: the
        breadth-first walk up the owners. The difference is not read. The walk follows
        every parent in `merged_view[0]`, which is what zipping it with the parallel
        weight lists of `merged_view[1]` yields in well-formed lists. */
    method UpdateParentValues(start: string, valueDifference: Option<real>, ghost t: Topology)
      requires Valid()
      requires Graph() == t && TopologyOk(t) && start in t.parents
      modifies allPrices, this`events
      ensures var r := Run(t, start, StartWalk(start, old(allPrices[..]), old(events)));
        allPrices[..] == r.prices && events == r.events
    {
      ghost var w := StartWalk(start, allPrices[..], events);
      WalkingStart(t, start, w);
      Drain(start, [start], [start], true, t, Run(t, start, w), w);
    }

    /** The `while queue` loop of `update_parent_values`, from the walk `w0`, whose local
        state is `queue0`, `visited0` and `status0`, to its end `final`. */
    method Drain(start: string, queue0: seq<string>, visited0: seq<string>, status0: bool,
                 ghost t: Topology, ghost final: Walk, ghost w0: Walk)
      requires Graph() == t && w0 == Walk(queue0, visited0, status0, allPrices[..], events, w0.evaluated, w0.priced)
      requires Walking(t, start, w0, final)
      modifies allPrices, this`events
      ensures allPrices[..] == final.prices && events == final.events
    {
      var queue, visited, status := queue0, visited0, status0;
      ghost var w := w0;
      while queue != []
        invariant w == Walk(queue, visited, status, allPrices[..], events, w.evaluated, w.priced)
        invariant Walking(t, start, w, final)
        decreases |Unvisited(t, w)|, |w.queue|
      {
        queue, visited, status, w := VisitNext(start, queue, visited, status, t, final, w);
      }
      WalkingDone(t, start, w, final);
    }

    /** One iteration of the `while queue` loop: pops the head, evaluates it unless it
        is the start, and on success enqueues its parents not yet visited. */
    method VisitNext(start: string, queue: seq<string>, visited: seq<string>, status: bool,
                     ghost t: Topology, ghost final: Walk, ghost w: Walk)
      returns (queue': seq<string>, visited': seq<string>, status': bool, ghost w': Walk)
      requires Graph() == t && w == Walk(queue, visited, status, allPrices[..], events, w.evaluated, w.priced)
      requires queue != [] && Walking(t, start, w, final)
      modifies allPrices, this`events
      ensures w' == Step(t, start, w) && Walking(t, start, w', final)
      ensures w' == Walk(queue', visited', status', allPrices[..], events, w'.evaluated, w'.priced)
      ensures |Unvisited(t, w')| < |Unvisited(t, w)| || (Unvisited(t, w') == Unvisited(t, w) && |w'.queue| < |w.queue|)
    {
      WalkingHead(t, start, w, final);
      WalkingStep(t, start, w, final);
      var node := queue[0];
      // merged_view[0][node]: fix_structure is over, the lists no longer change
      var parents := MergedParents(Declared())[node];
      ghost var e := Evaluate(t, start, node, w.(queue := queue[1..]));
      queue', visited', status' := queue[1..], visited, status;
      ghost var evaluated', priced' := w.evaluated, w.priced;
      if node != start {
        status' := PortfolioUpdateValue(node, None);
        evaluated' := evaluated' + [node];
        if status' {
          priced' := priced' + [node];
        }
      }
      assert e == Walk(queue', visited', status', allPrices[..], events, evaluated', priced');
      if status' {
        visited', queue' := Enqueue(parents, visited', queue');
      }
      w' := Walk(queue', visited', status', allPrices[..], events, evaluated', priced');
    }

    /** `Stock.update_value(new_value)` of the stock called `name`: sets its price and
        revalues its owners. */
    method StockUpdateValue(name: string, newValue: real)
      requires Valid() && TopologyOk(Graph()) && name in stocks
      requires stocks[name].name == name && stocks[name].refidx < allPrices.Length && name in MergedParents(Declared())
      modifies allPrices, this`events
      ensures var w := SetPrice(old(allPrices[..]), name, stocks[name].refidx, Some(newValue));
        var r := Run(Graph(), name, StartWalk(name, w.prices, old(events) + w.events));
        allPrices[..] == r.prices && events == r.events
    {
      ghost var t := Graph();
      var stock := stocks[name];
      ghost var w := SetPrice(allPrices[..], name, stock.refidx, Some(newValue));
      var oldValue := allPrices[stock.refidx];
      WritePrice(stock.name, stock.refidx, Some(newValue));
      assert allPrices[..] == w.prices && events == old(events) + w.events;
      var valueDifference := if oldValue.Some? then Some(newValue - oldValue.value) else None;
      UpdateParentValues(stock.name, valueDifference, t);
      assert Graph() == t && stocks[name] == stock;
    }
  }
}
