/**
 * The propagation phase of `portfolio_tool.py` on values: the `price` setter, the
 * dot-product recomputation of `Portfolio.update_value`, and the breadth-first
 * walk of `Component.update_parent_values`. Prices are the shared price array,
 * with NaN as `None`; each `print_value` call is an `Event` appended to a log.
 */
module Valuation {
  import opened Wrappers
  import opened Adjacency
  import opened Linking

  /** One `print_value()` line: the node's name and its new price. */
  datatype Event = Event(name: string, value: Option<real>)

  /** Python's `self.price != value` on floats: NaN is different from everything,
      itself included. */
  predicate Differs(current: Option<real>, value: Option<real>)
  {
    !(current.Some? && value.Some? && current.value == value.value)
  }

  /** The price array and the events a write produced. */
  datatype Written = Written(prices: seq<Option<real>>, events: seq<Event>)

  /** The `price` setter of the node `name` whose slot is `idx`: the slot is written,
      and a line printed, only when the value differs from the current one. */
  function SetPrice(prices: seq<Option<real>>, name: string, idx: nat, value: Option<real>): (r: Written)
    requires idx < |prices|
    ensures |r.prices| == |prices|
    ensures r.prices[idx] == value
    ensures forall j :: 0 <= j < |prices| && j != idx ==> r.prices[j] == prices[j]
    ensures r.events == if Differs(prices[idx], value) then [Event(name, value)] else []
  {
    if Differs(prices[idx], value) then Written(prices[idx := value], [Event(name, value)])
    else Written(prices, [])
  }

  /** Writing the same known price twice: the second write changes nothing and prints
      nothing. */
  lemma SetPriceTwice(prices: seq<Option<real>>, name: string, idx: nat, value: real)
    requires idx < |prices|
    ensures var once := SetPrice(prices, name, idx, Some(value));
      var twice := SetPrice(once.prices, name, idx, Some(value));
      twice.prices == once.prices && twice.events == []
  {
  }

  /** `numpy.dot` of two vectors of equal length. */
  function Dot(xs: seq<real>, ws: seq<real>): real
    requires |xs| == |ws|
  {
    if xs == [] then 0.0 else xs[0] * ws[0] + Dot(xs[1..], ws[1..])
  }

  /** `asset_prices`: `all_prices[self.assets]`. */
  function AssetPrices(prices: seq<Option<real>>, assets: seq<nat>): (px: seq<Option<real>>)
    requires forall i :: 0 <= i < |assets| ==> assets[i] < |prices|
    ensures |px| == |assets|
    ensures forall i :: 0 <= i < |assets| ==> px[i] == prices[assets[i]]
  {
    seq(|assets|, i requires 0 <= i < |assets| => prices[assets[i]])
  }

  predicate AllKnown(px: seq<Option<real>>)
  {
    forall i :: 0 <= i < |px| ==> px[i].Some?
  }

  function Values(px: seq<Option<real>>): (xs: seq<real>)
    requires AllKnown(px)
    ensures |xs| == |px|
  {
    seq(|px|, i requires 0 <= i < |px| => px[i].value)
  }

  /** A portfolio whose indices fit a price array of the given size and whose
      `assets` and `weights` are parallel. */
  ghost predicate NodeOk(p: PortfolioNode, size: nat)
  {
    && p.refidx < size
    && |p.assets| == |p.weights|
    && forall i :: 0 <= i < |p.assets| ==> p.assets[i] < size
  }

  /** The outcome of `Portfolio.update_value`: its return value, the prices, the events. */
  datatype Update = Update(ok: bool, prices: seq<Option<real>>, events: seq<Event>)

  /** `Portfolio.update_value(value_difference)`, `None` being NaN (the default). */
  function UpdateValue(p: PortfolioNode, diff: Option<real>, prices: seq<Option<real>>): (r: Update)
    requires NodeOk(p, |prices|)
    ensures |r.prices| == |prices|
    ensures !r.ok <==> !(prices[p.refidx].Some? && diff.Some?) && !AllKnown(AssetPrices(prices, p.assets))
    ensures !r.ok ==> r.prices == prices && r.events == []
    ensures forall j :: 0 <= j < |prices| && j != p.refidx ==> r.prices[j] == prices[j]
    ensures r.ok ==> r.prices[p.refidx].Some?
    ensures r.ok && prices[p.refidx].Some? && diff.Some? ==> r.prices[p.refidx] == Some(prices[p.refidx].value + diff.value)
    ensures r.ok && !(prices[p.refidx].Some? && diff.Some?) ==>
      r.prices[p.refidx] == Some(Dot(Values(AssetPrices(prices, p.assets)), p.weights))
    ensures r.events == if r.ok && Differs(prices[p.refidx], r.prices[p.refidx]) then [Event(p.name, r.prices[p.refidx])] else []
  {
    var current := prices[p.refidx];
    if current.Some? && diff.Some? then
      var w := SetPrice(prices, p.name, p.refidx, Some(current.value + diff.value));
      Update(true, w.prices, w.events)
    else
      var px := AssetPrices(prices, p.assets);
      if !AllKnown(px) then Update(false, prices, [])
      else
        var w := SetPrice(prices, p.name, p.refidx, Some(Dot(Values(px), p.weights)));
        Update(true, w.prices, w.events)
  }

  /** What the walk needs of the graph: the portfolio nodes, `merged_view[0]` (each
      name's parents), and the length of the price array. */
  datatype Topology = Topology(ports: map<string, PortfolioNode>, parents: map<string, seq<string>>, size: nat)

  /** Every node is keyed by its name and fits the price array, and every parent is a
      portfolio with a parent list of its own. */
  ghost predicate TopologyOk(t: Topology)
  {
    && (forall q :: q in t.ports ==> t.ports[q].name == q && NodeOk(t.ports[q], t.size))
    && (forall k, i :: k in t.parents && 0 <= i < |t.parents[k]| ==> t.parents[k][i] in t.ports && t.parents[k][i] in t.parents)
  }

  /** The local state of `update_parent_values`, plus the prices and the event log it
      changes, and (for the proofs) the nodes it evaluated and those that returned True. */
  datatype Walk = Walk(queue: seq<string>, visited: seq<string>, status: bool,
                       prices: seq<Option<real>>, events: seq<Event>,
                       evaluated: seq<string>, priced: seq<string>)

  /** The walk from `start` before its first iteration. */
  function StartWalk(start: string, prices: seq<Option<real>>, events: seq<Event>): Walk
  {
    Walk([start], [start], true, prices, events, [], [])
  }

  /** What keeps every step of the walk well defined: the queued and visited names
      have parent lists, and every queued name other than `start` is a portfolio. */
  ghost predicate WalkOk(t: Topology, start: string, w: Walk)
  {
    && TopologyOk(t)
    && start in t.parents
    && |w.prices| == t.size
    && (forall i :: 0 <= i < |w.visited| ==> w.visited[i] in t.parents)
    && (forall i :: 0 <= i < |w.queue| ==> w.queue[i] in t.parents && (w.queue[i] == start || w.queue[i] in t.ports))
  }

  /** The parents the inner loop appends to both `visited` and `queue`: those not yet
      visited, each once, in list order. */
  function Fresh(parents: seq<string>, visited: seq<string>): seq<string>
    decreases |parents|
  {
    if parents == [] then []
    else if parents[0] in visited then Fresh(parents[1..], visited)
    else [parents[0]] + Fresh(parents[1..], visited + [parents[0]])
  }

  /** The added parents are exactly the parents not yet visited, and they keep the
      visited list free of duplicates. */
  lemma {:induction false} FreshSpec(parents: seq<string>, visited: seq<string>)
    ensures forall x :: x in Fresh(parents, visited) <==> x in parents && x !in visited
    ensures Distinct(visited) ==> Distinct(visited + Fresh(parents, visited))
    decreases |parents|
  {
    if parents != [] {
      var p := parents[0];
      if p in visited {
        FreshSpec(parents[1..], visited);
        assert forall x :: x in parents <==> x == p || x in parents[1..];
      } else {
        FreshSpec(parents[1..], visited + [p]);
        assert forall x :: x in parents <==> x == p || x in parents[1..];
        assert visited + [p] + Fresh(parents[1..], visited + [p]) == visited + Fresh(parents, visited);
        if Distinct(visited) {
          assert Distinct(visited + [p]) by {
            forall i, j | 0 <= i < j < |visited| + 1
              ensures (visited + [p])[i] != (visited + [p])[j]
            {
              if j == |visited| {
                assert (visited + [p])[i] == visited[i];
              }
            }
          }
        }
      }
    }
  }

  /** The portfolio `node` evaluates (or, for the starting stock, the unchanged status). */
  function Evaluate(t: Topology, start: string, node: string, w: Walk): (r: Walk)
    requires TopologyOk(t) && |w.prices| == t.size && (node == start || node in t.ports)
    ensures |r.prices| == t.size && r.queue == w.queue && r.visited == w.visited
    ensures node == start ==> r == w
    ensures node != start ==> r.evaluated == w.evaluated + [node] && (r.priced == w.priced || r.priced == w.priced + [node])
  {
    if node == start then w
    else
      var u := UpdateValue(t.ports[node], None, w.prices);
      w.(status := u.ok, prices := u.prices, events := w.events + u.events,
         evaluated := w.evaluated + [node], priced := if u.ok then w.priced + [node] else w.priced)
  }

  /** One iteration of the `while queue` loop. */
  function Step(t: Topology, start: string, w: Walk): (r: Walk)
    requires WalkOk(t, start, w) && w.queue != []
  {
    var node := w.queue[0];
    var e := Evaluate(t, start, node, w.(queue := w.queue[1..]));
    if e.status then
      var added := Fresh(t.parents[node], e.visited);
      e.(visited := e.visited + added, queue := e.queue + added)
    else e
  }

  function Unvisited(t: Topology, w: Walk): set<string>
  {
    t.parents.Keys - set x | x in w.visited
  }

  /** The parents a portfolio adds to the walk are portfolios with parent lists. */
  lemma AddedAreOwners(t: Topology, node: string, visited: seq<string>)
    requires TopologyOk(t) && node in t.parents
    ensures forall x :: x in Fresh(t.parents[node], visited) ==> x in t.parents && x in t.ports
  {
    FreshSpec(t.parents[node], visited);
    forall x | x in Fresh(t.parents[node], visited)
      ensures x in t.parents && x in t.ports
    {
      var i :| 0 <= i < |t.parents[node]| && t.parents[node][i] == x;
    }
  }

  /** A step keeps the walk well defined. */
  lemma StepOk(t: Topology, start: string, w: Walk)
    requires WalkOk(t, start, w) && w.queue != []
    ensures WalkOk(t, start, Step(t, start, w))
  {
    var node := w.queue[0];
    var e := Evaluate(t, start, node, w.(queue := w.queue[1..]));
    if e.status {
      AddedAreOwners(t, node, e.visited);
      var added := Fresh(t.parents[node], e.visited);
      var r := Step(t, start, w);
      assert r.visited == w.visited + added && r.queue == w.queue[1..] + added;
      forall i | 0 <= i < |r.queue|
        ensures r.queue[i] in t.parents && (r.queue[i] == start || r.queue[i] in t.ports)
      {
        if i < |w.queue| - 1 {
          assert r.queue[i] == w.queue[i + 1];
        } else {
          assert r.queue[i] in added;
        }
      }
      forall i | 0 <= i < |r.visited|
        ensures r.visited[i] in t.parents
      {
        if i >= |w.visited| {
          assert r.visited[i] in added;
        }
      }
    }
  }

  lemma SubsetCard(a: set<string>, b: set<string>)
    requires a <= b
    ensures |a| <= |b|
  {
    if a != {} {
      var x :| x in a;
      SubsetCard(a - {x}, b - {x});
    }
  }

  /** A step either visits a new name or shortens the queue: the number of names not
      yet visited can only fall, so the walk ends even when the ownership graph has
      cycles. */
  lemma StepProgress(t: Topology, start: string, w: Walk)
    requires WalkOk(t, start, w) && w.queue != []
    ensures |Unvisited(t, Step(t, start, w))| < |Unvisited(t, w)| ||
      (Unvisited(t, Step(t, start, w)) == Unvisited(t, w) && |Step(t, start, w).queue| < |w.queue|)
  {
    var node := w.queue[0];
    var e := Evaluate(t, start, node, w.(queue := w.queue[1..]));
    var r := Step(t, start, w);
    if e.status {
      var added := Fresh(t.parents[node], e.visited);
      if added != [] {
        FreshSpec(t.parents[node], e.visited);
        AddedAreOwners(t, node, e.visited);
        var x := added[0];
        assert x in r.visited;
        assert x in Unvisited(t, w) && x !in Unvisited(t, r);
        assert Unvisited(t, r) <= Unvisited(t, w) - {x};
        SubsetCard(Unvisited(t, r), Unvisited(t, w) - {x});
      } else {
        assert r.visited == w.visited;
      }
    }
  }

  /** The whole `while queue` loop. */
  function Run(t: Topology, start: string, w: Walk): (r: Walk)
    requires WalkOk(t, start, w)
    ensures WalkOk(t, start, r) && r.queue == []
    decreases |Unvisited(t, w)|, |w.queue|
  {
    if w.queue == [] then w
    else
      StepOk(t, start, w);
      StepProgress(t, start, w);
      Run(t, start, Step(t, start, w))
  }

  /** The state of the `while queue` loop: going on from `w` ends at `final`. */
  ghost predicate Walking(t: Topology, start: string, w: Walk, final: Walk)
  {
    WalkOk(t, start, w) && Run(t, start, w) == final
  }

  lemma WalkingStart(t: Topology, start: string, w0: Walk)
    requires WalkOk(t, start, w0)
    ensures Walking(t, start, w0, Run(t, start, w0))
  {
  }

  /** The head of the queue has a parent list, and is the start or a portfolio. */
  lemma WalkingHead(t: Topology, start: string, w: Walk, final: Walk)
    requires Walking(t, start, w, final) && w.queue != []
    ensures TopologyOk(t) && |w.prices| == t.size
    ensures w.queue[0] in t.parents && (w.queue[0] == start || w.queue[0] in t.ports)
  {
  }

  lemma WalkingStep(t: Topology, start: string, w: Walk, final: Walk)
    requires Walking(t, start, w, final) && w.queue != []
    ensures Walking(t, start, Step(t, start, w), final)
    ensures |Unvisited(t, Step(t, start, w))| < |Unvisited(t, w)| ||
      (Unvisited(t, Step(t, start, w)) == Unvisited(t, w) && |Step(t, start, w).queue| < |w.queue|)
  {
    StepOk(t, start, w);
    StepProgress(t, start, w);
  }

  lemma WalkingDone(t: Topology, start: string, w: Walk, final: Walk)
    requires Walking(t, start, w, final) && w.queue == []
    ensures w == final
  {
  }
}
