/**
 * What the breadth-first walk of `update_parent_values` guarantees, for every
 * topology and every starting stock: which names it visits, that it evaluates
 * each of them once, and which price slots and log lines it can produce.
 *
 * It does not guarantee that every ancestor ends up consistent with its
 * children: an ancestor reached through a short path is evaluated before a
 * longer path to it has been recomputed, and is never revisited.
 */
module WalkProperties {
  import opened Wrappers
  import opened Adjacency
  import opened Linking
  import opened Valuation

  /** `x` is a parent of `q` in the merged view. */
  ghost predicate Owns(t: Topology, q: string, x: string)
  {
    q in t.parents && x in t.parents[q]
  }

  /** `x` was reached from the start or from a portfolio that was priced. */
  ghost predicate Reached(t: Topology, start: string, priced: seq<string>, x: string)
  {
    Owns(t, start, x) || exists j :: 0 <= j < |priced| && Owns(t, priced[j], x)
  }

  /** The bookkeeping of the two lists: `visited` starts with `start` and has no
      duplicates, the queue is its unprocessed tail, and every processed name but
      `start` has been evaluated, in visiting order. */
  ghost predicate Shape(start: string, w: Walk)
  {
    && Distinct(w.visited) && |w.visited| >= 1 && w.visited[0] == start
    && |w.queue| <= |w.visited|
    && w.queue == w.visited[|w.visited| - |w.queue|..]
    && (|w.queue| == |w.visited| ==> w.visited == [start] && w.evaluated == [] && w.priced == [] && w.status)
    && (|w.queue| < |w.visited| ==> w.evaluated == w.visited[1..|w.visited| - |w.queue|])
    && (forall x :: x in w.priced ==> x in w.evaluated)
    && Distinct(w.priced)
  }

  /** Every visited name but the start was reached from the start or a priced
      portfolio, and once a name has been processed successfully all its parents
      have been visited. */
  ghost predicate Reach(t: Topology, start: string, w: Walk)
  {
    && (forall i :: 1 <= i < |w.visited| ==> Reached(t, start, w.priced, w.visited[i]))
    && (|w.queue| < |w.visited| ==> forall x :: Owns(t, start, x) ==> x in w.visited)
    && (forall j, x :: 0 <= j < |w.priced| && Owns(t, w.priced[j], x) ==> x in w.visited)
  }

  /** Relative to the prices `p0` and log `e0` the walk started from: only evaluated
      portfolios' slots changed, no known slot became unknown, every priced portfolio
      is known, and the log grew only by lines of evaluated portfolios. */
  ghost predicate Tracked(t: Topology, p0: seq<Option<real>>, e0: seq<Event>, w: Walk)
  {
    && |w.prices| == |p0|
    && (forall q :: q in w.evaluated ==> q in t.ports)
    && (forall j :: 0 <= j < |p0| && w.prices[j] != p0[j] ==>
          exists q :: q in w.evaluated && q in t.ports && t.ports[q].refidx == j)
    && (forall j :: 0 <= j < |p0| && p0[j].Some? ==> w.prices[j].Some?)
    && (forall q :: q in w.priced ==> q in t.ports && t.ports[q].refidx < |w.prices| && w.prices[t.ports[q].refidx].Some?)
    && |e0| <= |w.events| && w.events[..|e0|] == e0
    && (forall i :: |e0| <= i < |w.events| ==> w.events[i].name in w.evaluated)
  }

  ghost predicate Inv(t: Topology, start: string, p0: seq<Option<real>>, e0: seq<Event>, w: Walk)
  {
    WalkOk(t, start, w) && Shape(start, w) && Reach(t, start, w) && Tracked(t, p0, e0, w)
  }

  lemma StartInv(t: Topology, start: string, p0: seq<Option<real>>, e0: seq<Event>)
    requires WalkOk(t, start, StartWalk(start, p0, e0))
    ensures Inv(t, start, p0, e0, StartWalk(start, p0, e0))
  {
  }

  lemma StepKeepsShape(t: Topology, start: string, w: Walk)
    requires WalkOk(t, start, w) && Shape(start, w) && w.queue != []
    ensures Shape(start, Step(t, start, w))
  {
    if |w.queue| == |w.visited| {
      FirstStepShape(t, start, w);
    } else {
      LaterStepShape(t, start, w);
    }
  }

  /** The first iteration pops the start itself, which is not evaluated. */
  lemma FirstStepShape(t: Topology, start: string, w: Walk)
    requires WalkOk(t, start, w) && Shape(start, w) && w.queue != [] && |w.queue| == |w.visited|
    ensures Shape(start, Step(t, start, w))
  {
    var r := Step(t, start, w);
    var added := Fresh(t.parents[start], w.visited);
    FreshSpec(t.parents[start], w.visited);
    assert w.visited == [start] && w.queue == [start];
    assert r.visited == [start] + added && r.queue == added;
    assert r.evaluated == [] == r.visited[1..1];
  }

  /** A later iteration pops the next visited name and appends it to the evaluated ones. */
  lemma LaterStepShape(t: Topology, start: string, w: Walk)
    requires WalkOk(t, start, w) && Shape(start, w) && w.queue != [] && |w.queue| < |w.visited|
    ensures Shape(start, Step(t, start, w))
  {
    var n := |w.visited| - |w.queue|;
    var node := w.queue[0];
    assert node == w.visited[n] && node != start;
    var e := Evaluate(t, start, node, w.(queue := w.queue[1..]));
    var r := Step(t, start, w);
    var added := if e.status then Fresh(t.parents[node], w.visited) else [];
    FreshSpec(t.parents[node], w.visited);
    assert r.visited == w.visited + added && r.queue == w.queue[1..] + added;
    assert r.queue == r.visited[n + 1..];
    assert r.evaluated == w.evaluated + [node] == r.visited[1..n + 1];
    if r.priced != w.priced {
      assert node !in w.evaluated;
    }
  }

  lemma StepKeepsReach(t: Topology, start: string, w: Walk)
    requires WalkOk(t, start, w) && Shape(start, w) && Reach(t, start, w) && w.queue != []
    ensures Reach(t, start, Step(t, start, w))
  {
    var n := |w.visited| - |w.queue|;
    var node := w.queue[0];
    assert node == w.visited[n];
    var e := Evaluate(t, start, node, w.(queue := w.queue[1..]));
    var r := Step(t, start, w);
    var added := if e.status then Fresh(t.parents[node], w.visited) else [];
    FreshSpec(t.parents[node], w.visited);
    assert r.visited == w.visited + added;
    assert r.priced == w.priced || (node != start && r.priced == w.priced + [node]);
    forall i | 1 <= i < |r.visited|
      ensures Reached(t, start, r.priced, r.visited[i])
    {
      var x := r.visited[i];
      if i < |w.visited| {
        assert Reached(t, start, w.priced, x);
        if !Owns(t, start, x) {
          var j :| 0 <= j < |w.priced| && Owns(t, w.priced[j], x);
          assert r.priced[j] == w.priced[j];
        }
      } else {
        assert x in added && e.status && Owns(t, node, x);
        if node != start {
          assert r.priced[|w.priced|] == node;
        }
      }
    }
    forall j, x | 0 <= j < |r.priced| && Owns(t, r.priced[j], x)
      ensures x in r.visited
    {
      if j < |w.priced| {
        assert r.priced[j] == w.priced[j];
      }
    }
  }

  lemma StepKeepsTracked(t: Topology, start: string, p0: seq<Option<real>>, e0: seq<Event>, w: Walk)
    requires WalkOk(t, start, w) && Tracked(t, p0, e0, w) && w.queue != []
    ensures Tracked(t, p0, e0, Step(t, start, w))
  {
    var node := w.queue[0];
    var r := Step(t, start, w);
    if node != start {
      var p := t.ports[node];
      var u := UpdateValue(p, None, w.prices);
      assert r.prices == u.prices && r.events == w.events + u.events && r.evaluated == w.evaluated + [node];
      forall j | 0 <= j < |p0| && r.prices[j] != p0[j]
        ensures exists q :: q in r.evaluated && q in t.ports && t.ports[q].refidx == j
      {
        if j == p.refidx {
          assert node in r.evaluated;
        } else {
          var q :| q in w.evaluated && q in t.ports && t.ports[q].refidx == j;
          assert q in r.evaluated;
        }
      }
      forall q | q in r.priced
        ensures q in t.ports && t.ports[q].refidx < |r.prices| && r.prices[t.ports[q].refidx].Some?
      {
        if q != node {
          assert q in w.priced;
        }
      }
      assert r.events[..|e0|] == w.events[..|e0|];
      forall i | |e0| <= i < |r.events|
        ensures r.events[i].name in r.evaluated
      {
        if i >= |w.events| {
          assert r.events[i] == u.events[i - |w.events|];
        } else {
          assert r.events[i] == w.events[i];
        }
      }
    }
  }

  lemma {:induction false} RunKeepsInv(t: Topology, start: string, p0: seq<Option<real>>, e0: seq<Event>, w: Walk)
    requires Inv(t, start, p0, e0, w)
    ensures Inv(t, start, p0, e0, Run(t, start, w))
    decreases |Unvisited(t, w)|, |w.queue|
  {
    if w.queue != [] {
      StepOk(t, start, w);
      StepProgress(t, start, w);
      StepKeepsShape(t, start, w);
      StepKeepsReach(t, start, w);
      StepKeepsTracked(t, start, p0, e0, w);
      RunKeepsInv(t, start, p0, e0, Step(t, start, w));
    }
  }

  /** The walk never evaluates the starting stock, and evaluates every other name it
      visits exactly once, in visiting order (`visited` is marked when a name is
      enqueued). */
  lemma WalkEvaluatesEachOnce(t: Topology, start: string, p0: seq<Option<real>>, e0: seq<Event>)
    requires WalkOk(t, start, StartWalk(start, p0, e0))
    ensures var r := Run(t, start, StartWalk(start, p0, e0));
      && |r.visited| >= 1 && r.visited[0] == start && r.evaluated == r.visited[1..]
      && Distinct(r.evaluated)
      && start !in r.evaluated
  {
    StartInv(t, start, p0, e0);
    RunKeepsInv(t, start, p0, e0, StartWalk(start, p0, e0));
    var r := Run(t, start, StartWalk(start, p0, e0));
    forall i | 0 <= i < |r.evaluated|
      ensures r.evaluated[i] != start
    {
      assert r.evaluated[i] == r.visited[i + 1];
    }
  }

  /** The walk visits exactly the start, the start's parents, and the parents of the
      portfolios whose evaluation returned True: the parents of a portfolio that could
      not be priced are enqueued only if another route reaches them. */
  lemma WalkVisitsOwners(t: Topology, start: string, p0: seq<Option<real>>, e0: seq<Event>)
    requires WalkOk(t, start, StartWalk(start, p0, e0))
    ensures var r := Run(t, start, StartWalk(start, p0, e0));
      forall x :: x in r.visited <==> x == start || Reached(t, start, r.priced, x)
    ensures var r := Run(t, start, StartWalk(start, p0, e0));
      forall x :: x in r.priced ==> x in r.evaluated
  {
    StartInv(t, start, p0, e0);
    RunKeepsInv(t, start, p0, e0, StartWalk(start, p0, e0));
    FinishedVisitsOwners(t, start, Run(t, start, StartWalk(start, p0, e0)));
  }

  /** A walk whose queue is empty has visited exactly the start and the names reached
      from the start or from a priced portfolio. */
  lemma FinishedVisitsOwners(t: Topology, start: string, r: Walk)
    requires Shape(start, r) && Reach(t, start, r) && r.queue == []
    ensures forall x :: x in r.visited <==> x == start || Reached(t, start, r.priced, x)
    ensures forall x :: x in r.priced ==> x in r.evaluated
  {
    forall x | x in r.visited && x != start
      ensures Reached(t, start, r.priced, x)
    {
      var i :| 0 <= i < |r.visited| && r.visited[i] == x;
    }
  }

  /** The walk writes only the slots of the portfolios it evaluates, never turns a
      known price unknown, leaves every portfolio that returned True priced, and logs
      only lines of evaluated portfolios after the lines already there. */
  lemma WalkChangesOnlyEvaluated(t: Topology, start: string, p0: seq<Option<real>>, e0: seq<Event>)
    requires WalkOk(t, start, StartWalk(start, p0, e0))
    ensures var r := Run(t, start, StartWalk(start, p0, e0));
      && |r.prices| == |p0|
      && (forall j :: 0 <= j < |p0| && r.prices[j] != p0[j] ==>
            exists q :: q in r.evaluated && q in t.ports && t.ports[q].refidx == j)
      && (forall j :: 0 <= j < |p0| && p0[j].Some? ==> r.prices[j].Some?)
      && (forall q :: q in r.priced ==> q in t.ports && t.ports[q].refidx < |r.prices| && r.prices[t.ports[q].refidx].Some?)
      && |e0| <= |r.events| && r.events[..|e0|] == e0
      && (forall i :: |e0| <= i < |r.events| ==> r.events[i].name in r.evaluated)
  {
    StartInv(t, start, p0, e0);
    RunKeepsInv(t, start, p0, e0, StartWalk(start, p0, e0));
  }

  /** Closed under parents: a set of names that holds every parent of its members. */
  ghost predicate UpwardClosed(t: Topology, names: set<string>)
  {
    forall q, x :: q in names && Owns(t, q, x) ==> x in names
  }

  lemma {:induction false} RunStaysWithin(t: Topology, start: string, w: Walk, names: set<string>)
    requires WalkOk(t, start, w) && UpwardClosed(t, names)
    requires forall x :: x in w.visited ==> x in names
    requires forall x :: x in w.queue ==> x in names
    ensures forall x :: x in Run(t, start, w).visited ==> x in names
    decreases |Unvisited(t, w)|, |w.queue|
  {
    if w.queue != [] {
      StepOk(t, start, w);
      StepProgress(t, start, w);
      var node := w.queue[0];
      var r := Step(t, start, w);
      FreshSpec(t.parents[node], w.visited);
      assert forall x :: x in r.visited ==> x in w.visited || Owns(t, node, x);
      assert forall x :: x in r.queue ==> x in w.queue[1..] || Owns(t, node, x);
      RunStaysWithin(t, start, r, names);
    }
  }

  /** The walk stays among the start's ancestors: every name it visits lies in every
      parent-closed set of names that contains the start. */
  lemma WalkStaysAmongAncestors(t: Topology, start: string, p0: seq<Option<real>>, e0: seq<Event>, names: set<string>)
    requires WalkOk(t, start, StartWalk(start, p0, e0))
    requires start in names && UpwardClosed(t, names)
    ensures forall x :: x in Run(t, start, StartWalk(start, p0, e0)).visited ==> x in names
  {
    RunStaysWithin(t, start, StartWalk(start, p0, e0), names);
  }
}
