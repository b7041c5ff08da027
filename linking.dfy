/**
 * The graph nodes of `portfolio_tool.py` and the second initialisation step,
 * `_link_nodes`, which fills every portfolio's `assets` (price indices of its
 * children) and `weights` (their quantities) from the adjacency lists.
 *
 * The `Stock` and `Portfolio` objects are values here, kept by name in the
 * graph's maps; their weak back-reference to the graph is replaced by the graph
 * itself, which owns the shared price array.
 */
module Linking {
  import opened Wrappers
  import opened Adjacency

  /** A `Stock` node: its name and its index into the shared price array. */
  datatype StockNode = StockNode(name: string, refidx: nat)

  /** A `Portfolio` node: name, price index, and the parallel `assets`/`weights` lists. */
  datatype PortfolioNode = PortfolioNode(name: string, refidx: nat, assets: seq<nat>, weights: seq<real>)

  /** `_init_nodes` for the stocks: one node per stock-bucket key, carrying its index. */
  function NewStocks(b: Bucket, refidx: map<string, nat>): (m: map<string, StockNode>)
    requires forall k :: k in b.order ==> k in refidx
    ensures forall k :: k in m <==> k in b.order
    ensures forall k :: k in m ==> m[k] == StockNode(k, refidx[k])
  {
    map k | k in b.order :: StockNode(k, refidx[k])
  }

  /** `_init_nodes` for the portfolios: one node per portfolio-bucket key, carrying its
      index, with empty `assets` and `weights`. */
  function NewPortfolios(b: Bucket, refidx: map<string, nat>): (m: map<string, PortfolioNode>)
    requires forall k :: k in b.order ==> k in refidx
    ensures forall k :: k in m <==> k in b.order
    ensures forall k :: k in m ==> m[k] == PortfolioNode(k, refidx[k], [], [])
  {
    map k | k in b.order :: PortfolioNode(k, refidx[k], [], [])
  }

  /** One declared ownership: the child's price index, its owner's name, the quantity. */
  datatype Edge = Edge(child: nat, owner: string, weight: real)

  /** `zip(owners, weights)` for one child. */
  function ChildEdges(child: nat, owners: seq<string>, ws: seq<real>): (r: seq<Edge>)
    ensures |r| == if |owners| < |ws| then |owners| else |ws|
  {
    if owners == [] || ws == [] then []
    else [Edge(child, owners[0], ws[0])] + ChildEdges(child, owners[1..], ws[1..])
  }

  /** The edges of the given keys of one bucket, key by key. */
  function BucketEdges(b: Bucket, refidx: map<string, nat>, names: seq<string>): seq<Edge>
    requires forall k :: k in names ==> k in b.parents && k in b.weights && k in refidx
  {
    if names == [] then []
    else ChildEdges(refidx[names[0]], b.parents[names[0]], b.weights[names[0]]) + BucketEdges(b, refidx, names[1..])
  }

  ghost predicate Indexed(g: Lists, refidx: map<string, nat>)
  {
    && (forall k :: k in g.stocks.order ==> k in g.stocks.parents && k in g.stocks.weights && k in refidx)
    && (forall k :: k in g.portfolios.order ==> k in g.portfolios.parents && k in g.portfolios.weights && k in refidx)
  }

  /** Every edge `_link_nodes` visits, in its order: stocks first, then portfolios. */
  function Edges(g: Lists, refidx: map<string, nat>): seq<Edge>
    requires Indexed(g, refidx)
  {
    BucketEdges(g.stocks, refidx, g.stocks.order) + BucketEdges(g.portfolios, refidx, g.portfolios.order)
  }

  /** The portfolios after linking, and the owner that raised `KeyError`, if any. */
  datatype Linked = Linked(ports: map<string, PortfolioNode>, missing: Option<string>)

  function Attach(p: PortfolioNode, e: Edge): PortfolioNode
  {
    p.(weights := p.weights + [e.weight], assets := p.assets + [e.child])
  }

  /** The appends of `_link_nodes`, edge by edge; stops at the first owner that is
      not a portfolio. */
  function Link(ports: map<string, PortfolioNode>, edges: seq<Edge>): Linked
  {
    if edges == [] then Linked(ports, None)
    else if edges[0].owner !in ports then Linked(ports, Some(edges[0].owner))
    else Link(ports[edges[0].owner := Attach(ports[edges[0].owner], edges[0])], edges[1..])
  }

  /** The child indices of the edges to one owner, in order. */
  function Children(edges: seq<Edge>, owner: string): seq<nat>
  {
    if edges == [] then []
    else (if edges[0].owner == owner then [edges[0].child] else []) + Children(edges[1..], owner)
  }

  /** The quantities of the edges to one owner, in order. */
  function Quantities(edges: seq<Edge>, owner: string): seq<real>
  {
    if edges == [] then []
    else (if edges[0].owner == owner then [edges[0].weight] else []) + Quantities(edges[1..], owner)
  }

  /** The owners named by some edges. */
  function OwnersOf(edges: seq<Edge>): set<string>
  {
    set i | 0 <= i < |edges| :: edges[i].owner
  }

  /** The owners of two runs of edges are the owners of their concatenation. */
  lemma OwnersOfAppend(a: seq<Edge>, b: seq<Edge>)
    ensures OwnersOf(a + b) == OwnersOf(a) + OwnersOf(b)
  {
    forall x | x in OwnersOf(a) + OwnersOf(b)
      ensures x in OwnersOf(a + b)
    {
      if x in OwnersOf(a) {
        var j :| 0 <= j < |a| && a[j].owner == x;
        assert (a + b)[j] == a[j];
      } else {
        var j :| 0 <= j < |b| && b[j].owner == x;
        assert (a + b)[|a| + j] == b[j];
      }
    }
    forall x | x in OwnersOf(a + b)
      ensures x in OwnersOf(a) + OwnersOf(b)
    {
      var j :| 0 <= j < |a + b| && (a + b)[j].owner == x;
      if j < |a| {
        assert (a + b)[j] == a[j];
      } else {
        assert (a + b)[j] == b[j - |a|];
      }
    }
  }

  /** Linking, whether or not it raises, keeps the portfolio keys and each portfolio's
      name and index. */
  lemma {:induction false} LinkKeepsIndices(ports: map<string, PortfolioNode>, edges: seq<Edge>)
    ensures var r := Link(ports, edges).ports;
      r.Keys == ports.Keys && forall o :: o in ports ==> r[o].name == ports[o].name && r[o].refidx == ports[o].refidx
  {
    if edges != [] && edges[0].owner in ports {
      LinkKeepsIndices(ports[edges[0].owner := Attach(ports[edges[0].owner], edges[0])], edges[1..]);
    }
  }

  /** Linking runs the edges in sequence: the second part starts where the first ended,
      unless the first raised. */
  lemma {:induction false} LinkAppend(ports: map<string, PortfolioNode>, a: seq<Edge>, b: seq<Edge>)
    ensures Link(ports, a + b) ==
      var ra := Link(ports, a);
      if ra.missing.Some? then ra else Link(ra.ports, b)
  {
    if a == [] {
      assert a + b == b;
    } else {
      assert (a + b)[0] == a[0] && (a + b)[1..] == a[1..] + b;
      if a[0].owner in ports {
        LinkAppend(ports[a[0].owner := Attach(ports[a[0].owner], a[0])], a[1..], b);
      }
    }
  }

  /** `_link_nodes` raises `KeyError` exactly when some edge's owner is not a portfolio,
      and then names the first such owner. */
  lemma {:induction false} LinkMissing(ports: map<string, PortfolioNode>, edges: seq<Edge>)
    ensures var r := Link(ports, edges);
      r.missing.None? <==> forall i :: 0 <= i < |edges| ==> edges[i].owner in ports
    ensures var r := Link(ports, edges);
      r.missing.Some? ==>
        && r.missing.value !in ports
        && exists i :: 0 <= i < |edges| && edges[i].owner == r.missing.value && forall j :: 0 <= j < i ==> edges[j].owner in ports
  {
    if edges != [] && edges[0].owner in ports {
      var next := ports[edges[0].owner := Attach(ports[edges[0].owner], edges[0])];
      assert next.Keys == ports.Keys;
      LinkMissing(next, edges[1..]);
      var r := Link(ports, edges);
      if r.missing.Some? {
        var i :| 0 <= i < |edges[1..]| && edges[1..][i].owner == r.missing.value && forall j :: 0 <= j < i ==> edges[1..][j].owner in next;
        assert edges[i + 1].owner == r.missing.value;
        forall j | 0 <= j < i + 1
          ensures edges[j].owner in ports
        {
          if j > 0 {
            assert edges[j] == edges[1..][j - 1];
          }
        }
      } else {
        forall i | 0 <= i < |edges|
          ensures edges[i].owner in ports
        {
          if i > 0 {
            assert edges[i] == edges[1..][i - 1];
          }
        }
      }
    }
  }

  /** Attaching the first edge, when it is to `o`, moves it from the edges still to
      link into the lists of the portfolio `o`. */
  lemma AttachFirst(p: PortfolioNode, edges: seq<Edge>, o: string)
    requires edges != []
    ensures var q := if edges[0].owner == o then Attach(p, edges[0]) else p;
      && q.assets + Children(edges[1..], o) == p.assets + Children(edges, o)
      && q.weights + Quantities(edges[1..], o) == p.weights + Quantities(edges, o)
  {
    var e := edges[0];
    var cs, qs := Children(edges[1..], o), Quantities(edges[1..], o);
    if e.owner == o {
      assert Children(edges, o) == [e.child] + cs;
      assert Quantities(edges, o) == [e.weight] + qs;
      assert (p.assets + [e.child]) + cs == p.assets + ([e.child] + cs);
      assert (p.weights + [e.weight]) + qs == p.weights + ([e.weight] + qs);
    } else {
      assert Children(edges, o) == [] + cs == cs;
      assert Quantities(edges, o) == [] + qs == qs;
    }
  }

  /** After a successful `_link_nodes` every portfolio keeps its name and index and has
      one asset and one weight appended per edge to it, duplicates included, in edge
      order. */
  lemma {:induction false} LinkContents(ports: map<string, PortfolioNode>, edges: seq<Edge>)
    requires Link(ports, edges).missing.None?
    ensures var r := Link(ports, edges).ports;
      && r.Keys == ports.Keys
      && forall o :: o in ports ==>
        && r[o].name == ports[o].name && r[o].refidx == ports[o].refidx
        && r[o].assets == ports[o].assets + Children(edges, o)
        && r[o].weights == ports[o].weights + Quantities(edges, o)
  {
    LinkKeepsIndices(ports, edges);
    if edges != [] {
      var next := ports[edges[0].owner := Attach(ports[edges[0].owner], edges[0])];
      LinkContents(next, edges[1..]);
      forall o | o in ports
        ensures Link(ports, edges).ports[o].assets == ports[o].assets + Children(edges, o)
        ensures Link(ports, edges).ports[o].weights == ports[o].weights + Quantities(edges, o)
      {
        AttachFirst(ports[o], edges, o);
      }
    }
  }

  lemma {:induction false} ChildrenQuantitiesLength(edges: seq<Edge>, owner: string)
    ensures |Children(edges, owner)| == |Quantities(edges, owner)|
  {
    if edges != [] {
      ChildrenQuantitiesLength(edges[1..], owner);
    }
  }

  lemma {:induction false} ChildrenAppend(a: seq<Edge>, b: seq<Edge>, owner: string)
    ensures Children(a + b, owner) == Children(a, owner) + Children(b, owner)
  {
    if a == [] {
      assert a + b == b;
    } else {
      assert (a + b)[0] == a[0] && (a + b)[1..] == a[1..] + b;
      ChildrenAppend(a[1..], b, owner);
    }
  }

  lemma {:induction false} ChildrenBounded(edges: seq<Edge>, owner: string, lo: nat, hi: nat)
    requires forall i :: 0 <= i < |edges| ==> lo <= edges[i].child < hi
    ensures forall i :: 0 <= i < |Children(edges, owner)| ==> lo <= Children(edges, owner)[i] < hi
  {
    if edges != [] {
      ChildrenBounded(edges[1..], owner, lo, hi);
      forall i | 0 <= i < |edges[1..]|
        ensures lo <= edges[1..][i].child < hi
      {
        assert edges[1..][i] == edges[i + 1];
      }
    }
  }

  lemma {:induction false} BucketEdgesBounded(b: Bucket, refidx: map<string, nat>, names: seq<string>, lo: nat, hi: nat)
    requires forall k :: k in names ==> k in b.parents && k in b.weights && k in refidx && lo <= refidx[k] < hi
    ensures forall i :: 0 <= i < |BucketEdges(b, refidx, names)| ==> lo <= BucketEdges(b, refidx, names)[i].child < hi
  {
    if names != [] {
      BucketEdgesBounded(b, refidx, names[1..], lo, hi);
      ChildEdgesChild(refidx[names[0]], b.parents[names[0]], b.weights[names[0]]);
    }
  }

  lemma {:induction false} ChildEdgesChild(child: nat, owners: seq<string>, ws: seq<real>)
    ensures forall i :: 0 <= i < |ChildEdges(child, owners, ws)| ==> ChildEdges(child, owners, ws)[i].child == child
  {
    if owners != [] && ws != [] {
      ChildEdgesChild(child, owners[1..], ws[1..]);
    }
  }

  /** Every owner of an edge of the given keys is one of their declared parents. */
  lemma {:induction false} BucketEdgesOwners(b: Bucket, refidx: map<string, nat>, names: seq<string>, owners: set<string>)
    requires forall k :: k in names ==> k in b.parents && k in b.weights && k in refidx
    requires forall k, i :: k in names && 0 <= i < |b.parents[k]| ==> b.parents[k][i] in owners
    ensures forall i :: 0 <= i < |BucketEdges(b, refidx, names)| ==> BucketEdges(b, refidx, names)[i].owner in owners
  {
    if names != [] {
      BucketEdgesOwners(b, refidx, names[1..], owners);
      ChildEdgesOwners(refidx[names[0]], b.parents[names[0]], b.weights[names[0]], owners);
    }
  }

  /** `zip` pairs the i-th owner with the i-th weight. */
  lemma {:induction false} ChildEdgesAt(child: nat, owners: seq<string>, ws: seq<real>)
    ensures forall i :: 0 <= i < |ChildEdges(child, owners, ws)| ==> ChildEdges(child, owners, ws)[i] == Edge(child, owners[i], ws[i])
  {
    if owners != [] && ws != [] {
      ChildEdgesAt(child, owners[1..], ws[1..]);
      var r := ChildEdges(child, owners, ws);
      forall i | 1 <= i < |r|
        ensures r[i] == Edge(child, owners[i], ws[i])
      {
        assert r[i] == ChildEdges(child, owners[1..], ws[1..])[i - 1];
      }
    }
  }

  /** With parallel lists, every declared parent of the given keys owns some edge. */
  lemma {:induction false} BucketEdgesCover(b: Bucket, refidx: map<string, nat>, names: seq<string>)
    requires forall k :: k in names ==> k in b.parents && k in b.weights && k in refidx && |b.parents[k]| == |b.weights[k]|
    ensures forall k, i :: k in names && 0 <= i < |b.parents[k]| ==> b.parents[k][i] in OwnersOf(BucketEdges(b, refidx, names))
  {
    if names != [] {
      var k0 := names[0];
      var head := ChildEdges(refidx[k0], b.parents[k0], b.weights[k0]);
      var tail := BucketEdges(b, refidx, names[1..]);
      BucketEdgesCover(b, refidx, names[1..]);
      ChildEdgesAt(refidx[k0], b.parents[k0], b.weights[k0]);
      forall k, i | k in names && 0 <= i < |b.parents[k]|
        ensures b.parents[k][i] in OwnersOf(head + tail)
      {
        if k == k0 {
          assert (head + tail)[i] == head[i];
        } else {
          assert k in names[1..];
          assert b.parents[k][i] in OwnersOf(tail);
          var j :| 0 <= j < |tail| && tail[j].owner == b.parents[k][i];
          assert (head + tail)[|head| + j] == tail[j];
        }
      }
    }
  }

  lemma {:induction false} ChildEdgesOwners(child: nat, owners: seq<string>, ws: seq<real>, known: set<string>)
    requires forall i :: 0 <= i < |owners| ==> owners[i] in known
    ensures forall i :: 0 <= i < |ChildEdges(child, owners, ws)| ==> ChildEdges(child, owners, ws)[i].owner in known
  {
    if owners != [] && ws != [] {
      ChildEdgesOwners(child, owners[1..], ws[1..], known);
    }
  }
}
