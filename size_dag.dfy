/**
 * The multi-parent variant of the size tree at the end of `test.py`: every file or folder
 * keeps a list of `parents`, a folder keeps its `children`, and a change of size travels
 * up every parent link, so that it reaches a folder once for every upward path to it.
 * Every object is an entry of an arena, and a reference to it is its index there.
 */
module SizeDag {

  /** A `File` or a `Folder` (with its `children`), with its `size` and `parents`. */
  datatype Node =
    | File(name: string, size: int, parents: seq<nat>)
    | Folder(name: string, size: int, parents: seq<nat>, children: seq<nat>)

  /** The object `n` with its size set to `size`. */
  function Resized(n: Node, size: int): (r: Node)
    ensures r.size == size && r.name == n.name && r.parents == n.parents && r.File? == n.File?
    ensures r.Folder? ==> r.children == n.children
  {
    match n
    case File(name, _, parents) => File(name, size, parents)
    case Folder(name, _, parents, children) => Folder(name, size, parents, children)
  }

  /** The object `n` with its parent list set to `parents`. */
  function Reparented(n: Node, parents: seq<nat>): (r: Node)
    ensures r.size == n.size && r.name == n.name && r.parents == parents && r.File? == n.File?
    ensures r.Folder? ==> r.children == n.children
  {
    match n
    case File(name, size, _) => File(name, size, parents)
    case Folder(name, size, _, children) => Folder(name, size, parents, children)
  }

  ghost predicate Distinct(s: seq<nat>)
  {
    forall i, j :: 0 <= i < j < |s| ==> s[i] != s[j]
  }

  /** `add_parent`: the list with `parent` appended unless it is already there; it then
      holds `parent`, loses nothing, gains nothing else and stays free of repeats. */
  function AddedParent(ps: seq<nat>, parent: nat): (r: seq<nat>)
    ensures parent in r
    ensures forall q :: q in r <==> q in ps || q == parent
    ensures parent in ps ==> r == ps
    ensures Distinct(ps) ==> Distinct(r)
  {
    if parent in ps then ps else ps + [parent]
  }

  /** The position of the first occurrence of `v`. */
  function IndexOf(ps: seq<nat>, v: nat): (i: nat)
    requires v in ps
    ensures i < |ps| && ps[i] == v && v !in ps[..i]
  {
    if ps[0] == v then 0 else 1 + IndexOf(ps[1..], v)
  }

  /** `list.remove`: the list without the first occurrence of `v`; one `v` fewer. */
  function RemoveFirst(ps: seq<nat>, v: nat): (r: seq<nat>)
    requires v in ps
    ensures |r| == |ps| - 1
    ensures multiset(r) == multiset(ps) - multiset{v}
  {
    var i := IndexOf(ps, v);
    assert ps == ps[..i] + [v] + ps[i + 1..];
    ps[..i] + ps[i + 1..]
  }

  /** Without repeats, removing the first occurrence of `v` removes `v` and nothing
      else, and leaves no repeats. */
  lemma RemoveFirstDistinct(ps: seq<nat>, v: nat)
    requires v in ps
    ensures Distinct(ps) ==> v !in RemoveFirst(ps, v) && Distinct(RemoveFirst(ps, v))
    ensures Distinct(ps) ==> forall q :: q in RemoveFirst(ps, v) <==> q in ps && q != v
  {
    var r := RemoveFirst(ps, v);
    var i := IndexOf(ps, v);
    assert r == ps[..i] + ps[i + 1..];
    assert forall j :: 0 <= j < |r| ==> r[j] == (if j < i then ps[j] else ps[j + 1]);
    if Distinct(ps) {
      forall q
        ensures q in r <==> q in ps && q != v
      {
        if q in ps && q != v {
          var k :| 0 <= k < |ps| && ps[k] == q;
          assert r[if k < i then k else k - 1] == q;
        }
      }
    }
  }

  /** `remove_parent`: the list without `parent` when it is there, else unchanged; a list
      with no repeats no longer holds `parent` afterwards. */
  function RemovedParent(ps: seq<nat>, parent: nat): (r: seq<nat>)
    ensures parent !in ps ==> r == ps
    ensures multiset(r) == multiset(ps) - multiset{parent}
    ensures Distinct(ps) ==> parent !in r && Distinct(r) && forall q :: q in r <==> q in ps && q != parent
  {
    if parent in ps then
      RemoveFirstDistinct(ps, parent);
      RemoveFirst(ps, parent)
    else
      assert multiset(ps)[parent] == 0;
      ps
  }

  /** Every parent link stays inside the arena and leads to a folder. */
  ghost predicate ParentsAreFolders(ns: seq<Node>)
  {
    forall i, k :: 0 <= i < |ns| && 0 <= k < |ns[i].parents| ==>
      ns[i].parents[k] < |ns| && ns[ns[i].parents[k]].Folder?
  }

  /** Every link stays inside the arena, every parent is a folder, and no list repeats. */
  ghost predicate WellFormed(ns: seq<Node>)
  {
    && ParentsAreFolders(ns)
    && (forall i :: 0 <= i < |ns| ==> Distinct(ns[i].parents))
    && (forall i, k :: 0 <= i < |ns| && ns[i].Folder? && 0 <= k < |ns[i].children| ==> ns[i].children[k] < |ns|)
    && (forall i :: 0 <= i < |ns| && ns[i].Folder? ==> Distinct(ns[i].children))
  }

  /** `add_child` keeps the two directions of every link in step: a folder lists a child
      exactly when the child lists the folder as a parent. */
  ghost predicate Linked(ns: seq<Node>)
  {
    WellFormed(ns) && InStep(ns)
  }

  /** A folder lists a child exactly when the child lists the folder as a parent. */
  ghost predicate InStep(ns: seq<Node>)
  {
    forall c, x :: 0 <= c < |ns| && 0 <= x < |ns| ==>
      (x in ns[c].parents <==> ns[x].Folder? && c in ns[x].children)
  }

  /** `ups` is the list of parents of every object of `ns`. */
  ghost predicate Follows(ns: seq<Node>, ups: seq<seq<nat>>)
  {
    |ns| == |ups| && forall i :: 0 <= i < |ns| ==> ns[i].parents == ups[i]
  }

  /** `rank` witnesses that following parents always ends: every parent ranks lower. */
  ghost predicate Ranked(ups: seq<seq<nat>>, rank: seq<nat>)
  {
    && |rank| == |ups|
    && forall i, k :: 0 <= i < |ups| && 0 <= k < |ups[i]| ==> ups[i][k] < |ups| && rank[ups[i][k]] < rank[i]
  }

  /** Every object of `ps` ranks below `bound`. */
  ghost predicate Below(ups: seq<seq<nat>>, rank: seq<nat>, ps: seq<nat>, bound: nat)
  {
    |rank| == |ups| && forall k :: 0 <= k < |ps| ==> ps[k] < |ups| && rank[ps[k]] < bound
  }

  /** The number of upward paths from `from` to `x` (one, the empty path, when they are
      the same object). */
  ghost function Paths(ups: seq<seq<nat>>, rank: seq<nat>, from: nat, x: nat): nat
    requires Ranked(ups, rank) && from < |ups|
    decreases rank[from], 1, 0
  {
    (if from == x then 1 else 0) + PathsVia(ups, rank, ups[from], x, rank[from])
  }

  /** The number of upward paths to `x` that start at one of `ps`. */
  ghost function PathsVia(ups: seq<seq<nat>>, rank: seq<nat>, ps: seq<nat>, x: nat, bound: nat): nat
    requires Ranked(ups, rank) && Below(ups, rank, ps, bound)
    decreases bound, 0, |ps|
  {
    if ps == [] then 0 else Paths(ups, rank, ps[0], x) + PathsVia(ups, rank, ps[1..], x, bound)
  }

  /** The objects `ns` after a change of `d` at `from` has travelled up every path. */
  ghost function Up(ns: seq<Node>, ups: seq<seq<nat>>, rank: seq<nat>, from: nat, d: int): (r: seq<Node>)
    requires Ranked(ups, rank) && from < |ups|
    ensures |r| == |ns|
    ensures forall x :: 0 <= x < |ns| ==> r[x] == Resized(ns[x], ns[x].size + d * Paths(ups, rank, from, x))
  {
    seq(|ns|, x requires 0 <= x < |ns| => Resized(ns[x], ns[x].size + d * Paths(ups, rank, from, x)))
  }

  /** The objects `ns` after a change of `d` has travelled up from each of `ps`. */
  ghost function UpVia(ns: seq<Node>, ups: seq<seq<nat>>, rank: seq<nat>, ps: seq<nat>, bound: nat, d: int): (r: seq<Node>)
    requires Ranked(ups, rank) && Below(ups, rank, ps, bound)
    ensures |r| == |ns|
    ensures forall x :: 0 <= x < |ns| ==> r[x] == Resized(ns[x], ns[x].size + d * PathsVia(ups, rank, ps, x, bound))
  {
    seq(|ns|, x requires 0 <= x < |ns| => Resized(ns[x], ns[x].size + d * PathsVia(ups, rank, ps, x, bound)))
  }

  /** Sending the change up from `from` first grows `from` itself, then sends it up from
      each of its parents. */
  lemma UpStart(ns: seq<Node>, ups: seq<seq<nat>>, rank: seq<nat>, from: nat, d: int)
    requires Ranked(ups, rank) && from < |ups| && from < |ns|
    ensures Below(ups, rank, ups[from], rank[from])
    ensures Up(ns, ups, rank, from, d) ==
      UpVia(ns[from := Resized(ns[from], ns[from].size + d)], ups, rank, ups[from], rank[from], d)
  {
    var l := Up(ns, ups, rank, from, d);
    var r := UpVia(ns[from := Resized(ns[from], ns[from].size + d)], ups, rank, ups[from], rank[from], d);
    forall x | 0 <= x < |ns|
      ensures l[x] == r[x]
    {
      var k := PathsVia(ups, rank, ups[from], x, rank[from]);
      if x == from {
        assert d * (1 + k) == d + d * k;
      }
    }
  }

  /** Sending the change up from the first of `ps` and then from the rest is sending it
      up from all of them. */
  lemma UpViaStep(ns: seq<Node>, ups: seq<seq<nat>>, rank: seq<nat>, ps: seq<nat>, bound: nat, d: int)
    requires Ranked(ups, rank) && Below(ups, rank, ps, bound) && ps != []
    ensures Below(ups, rank, ps[1..], bound)
    ensures UpVia(Up(ns, ups, rank, ps[0], d), ups, rank, ps[1..], bound, d) == UpVia(ns, ups, rank, ps, bound, d)
  {
    var l := UpVia(Up(ns, ups, rank, ps[0], d), ups, rank, ps[1..], bound, d);
    var r := UpVia(ns, ups, rank, ps, bound, d);
    forall x | 0 <= x < |ns|
      ensures l[x] == r[x]
    {
      var a := Paths(ups, rank, ps[0], x);
      var b := PathsVia(ups, rank, ps[1..], x, bound);
      assert d * (a + b) == d * a + d * b;
    }
  }

  /** Sending the change up from no object changes nothing. */
  lemma UpViaNone(ns: seq<Node>, ups: seq<seq<nat>>, rank: seq<nat>, bound: nat, d: int)
    requires Ranked(ups, rank)
    ensures Below(ups, rank, [], bound) && UpVia(ns, ups, rank, [], bound, d) == ns
  {
    var r := UpVia(ns, ups, rank, [], bound, d);
    forall x | 0 <= x < |ns|
      ensures r[x] == ns[x]
    {
    }
  }

  /** No upward path leads from `q` to an object that ranks at least as high, other than
      `q` itself. */
  lemma {:induction false} PathsNoDescent(ups: seq<seq<nat>>, rank: seq<nat>, q: nat, x: nat)
    requires Ranked(ups, rank) && q < |ups| && x < |ups| && rank[q] <= rank[x] && q != x
    ensures Paths(ups, rank, q, x) == 0
    decreases rank[q], 1, 0
  {
    PathsViaNoDescent(ups, rank, ups[q], x, rank[q]);
  }

  /** No upward path leads from any of `ps`, which rank below `bound`, to an object that
      ranks at least `bound`. */
  lemma {:induction false} PathsViaNoDescent(ups: seq<seq<nat>>, rank: seq<nat>, ps: seq<nat>, x: nat, bound: nat)
    requires Ranked(ups, rank) && Below(ups, rank, ps, bound) && x < |ups| && bound <= rank[x]
    ensures PathsVia(ups, rank, ps, x, bound) == 0
    decreases bound, 0, |ps|
  {
    if ps != [] {
      PathsNoDescent(ups, rank, ps[0], x);
      PathsViaNoDescent(ups, rank, ps[1..], x, bound);
    }
  }

  /** Exactly one upward path, the empty one, leads from an object to itself. */
  lemma PathsSelf(ups: seq<seq<nat>>, rank: seq<nat>, x: nat)
    requires Ranked(ups, rank) && x < |ups|
    ensures Paths(ups, rank, x, x) == 1
  {
    PathsViaNoDescent(ups, rank, ups[x], x, rank[x]);
  }

  /** The number of times `v` occurs in `s`. */
  function Count(s: seq<nat>, v: nat): (n: nat)
    ensures Distinct(s) ==> n == if v in s then 1 else 0
  {
    if s == [] then 0 else (if s[0] == v then 1 else 0) + Count(s[1..], v)
  }

  /** `ch` lists, once each, exactly the objects that have `x` among their parents, and
      no object lists a parent twice. */
  ghost predicate Gathers(ups: seq<seq<nat>>, x: nat, ch: seq<nat>)
  {
    && x < |ups| && Distinct(ch)
    && (forall k :: 0 <= k < |ch| ==> ch[k] < |ups|)
    && (forall c :: 0 <= c < |ups| ==> (c in ch <==> x in ups[c]))
    && (forall i :: 0 <= i < |ups| ==> Distinct(ups[i]))
  }

  /** The number of upward paths from `f` to any of `ch`. */
  ghost function SumPaths(ups: seq<seq<nat>>, rank: seq<nat>, ch: seq<nat>, f: nat): nat
    requires Ranked(ups, rank) && f < |ups|
  {
    if ch == [] then 0 else Paths(ups, rank, f, ch[0]) + SumPaths(ups, rank, ch[1..], f)
  }

  /** The number of upward paths from any of `ps` to any of `ch`, summed over `ch`. */
  ghost function SumVia(ups: seq<seq<nat>>, rank: seq<nat>, ch: seq<nat>, ps: seq<nat>, bound: nat): nat
    requires Ranked(ups, rank) && Below(ups, rank, ps, bound)
  {
    if ch == [] then 0 else PathsVia(ups, rank, ps, ch[0], bound) + SumVia(ups, rank, ch[1..], ps, bound)
  }

  /** The number of upward paths from any of `ps` to any of `ch`, summed over `ps`. */
  ghost function SumOver(ups: seq<seq<nat>>, rank: seq<nat>, ps: seq<nat>, ch: seq<nat>, bound: nat): nat
    requires Ranked(ups, rank) && Below(ups, rank, ps, bound)
  {
    if ps == [] then 0 else SumPaths(ups, rank, ch, ps[0]) + SumOver(ups, rank, ps[1..], ch, bound)
  }

  /** A path from `f` to one of `ch` is empty (when `f` is in `ch`) or leaves through a
      parent of `f`. */
  lemma {:induction false} SumPathsFirstEdge(ups: seq<seq<nat>>, rank: seq<nat>, ch: seq<nat>, f: nat)
    requires Ranked(ups, rank) && f < |ups|
    ensures Below(ups, rank, ups[f], rank[f])
    ensures SumPaths(ups, rank, ch, f) == Count(ch, f) + SumVia(ups, rank, ch, ups[f], rank[f])
  {
    if ch != [] {
      SumPathsFirstEdge(ups, rank, ch[1..], f);
    }
  }

  /** Summing path counts over `ch` splits along the first of `ps`. */
  lemma {:induction false} SumViaSplit(ups: seq<seq<nat>>, rank: seq<nat>, ch: seq<nat>, ps: seq<nat>, bound: nat)
    requires Ranked(ups, rank) && Below(ups, rank, ps, bound)
    ensures ps == [] ==> SumVia(ups, rank, ch, ps, bound) == 0
    ensures ps != [] ==>
      && Below(ups, rank, ps[1..], bound)
      && SumVia(ups, rank, ch, ps, bound) == SumPaths(ups, rank, ch, ps[0]) + SumVia(ups, rank, ch, ps[1..], bound)
  {
    if ch != [] {
      SumViaSplit(ups, rank, ch[1..], ps, bound);
    }
  }

  /** The two orders of summing the path counts from `ps` to `ch` agree. */
  lemma {:induction false} SumViaOver(ups: seq<seq<nat>>, rank: seq<nat>, ch: seq<nat>, ps: seq<nat>, bound: nat)
    requires Ranked(ups, rank) && Below(ups, rank, ps, bound)
    ensures SumVia(ups, rank, ch, ps, bound) == SumOver(ups, rank, ps, ch, bound)
    decreases |ps|
  {
    SumViaSplit(ups, rank, ch, ps, bound);
    if ps != [] {
      SumViaOver(ups, rank, ch, ps[1..], bound);
    }
  }

  /** `x` has no upward path to the objects of `ch`, which all rank above it. */
  lemma {:induction false} SumPathsAbove(ups: seq<seq<nat>>, rank: seq<nat>, ch: seq<nat>, x: nat)
    requires Ranked(ups, rank) && x < |ups|
    requires forall k :: 0 <= k < |ch| ==> ch[k] < |ups| && rank[x] < rank[ch[k]]
    ensures SumPaths(ups, rank, ch, x) == 0
  {
    if ch != [] {
      PathsNoDescent(ups, rank, x, ch[0]);
      SumPathsAbove(ups, rank, ch[1..], x);
    }
  }

  /** The children of `x`: they all rank above it. */
  lemma ChildrenRankAbove(ups: seq<seq<nat>>, rank: seq<nat>, x: nat, ch: seq<nat>)
    requires Ranked(ups, rank) && Gathers(ups, x, ch)
    ensures forall k :: 0 <= k < |ch| ==> ch[k] < |ups| && rank[x] < rank[ch[k]]
  {
    forall k | 0 <= k < |ch|
      ensures rank[x] < rank[ch[k]]
    {
      var c := ch[k];
      assert x in ups[c];
      var j :| 0 <= j < |ups[c]| && ups[c][j] == x;
    }
  }

  /** Counting upward paths by their last edge: the paths from `f` to `x` are the paths
      from `f` to the children of `x`, each followed by its edge up to `x`. */
  lemma {:induction false} PathsLastEdge(ups: seq<seq<nat>>, rank: seq<nat>, f: nat, x: nat, ch: seq<nat>)
    requires Ranked(ups, rank) && Gathers(ups, x, ch) && f < |ups| && f != x
    ensures Paths(ups, rank, f, x) == SumPaths(ups, rank, ch, f)
    decreases rank[f], 1, 0
  {
    SumPathsFirstEdge(ups, rank, ch, f);
    SumViaOver(ups, rank, ch, ups[f], rank[f]);
    PathsViaLastEdge(ups, rank, ups[f], x, ch, rank[f]);
    assert f in ch <==> x in ups[f];
  }

  /** `PathsLastEdge` for the paths that start at one of `ps`. */
  lemma {:induction false} PathsViaLastEdge(ups: seq<seq<nat>>, rank: seq<nat>, ps: seq<nat>, x: nat, ch: seq<nat>, bound: nat)
    requires Ranked(ups, rank) && Gathers(ups, x, ch) && Below(ups, rank, ps, bound)
    ensures PathsVia(ups, rank, ps, x, bound) == Count(ps, x) + SumOver(ups, rank, ps, ch, bound)
    decreases bound, 0, |ps|
  {
    if ps != [] {
      if ps[0] == x {
        PathsSelf(ups, rank, x);
        ChildrenRankAbove(ups, rank, x, ch);
        SumPathsAbove(ups, rank, ch, x);
      } else {
        PathsLastEdge(ups, rank, ps[0], x, ch);
      }
      PathsViaLastEdge(ups, rank, ps[1..], x, ch, bound);
    }
  }

  /** The total size of the objects `ch`. */
  ghost function ChildSum(ns: seq<Node>, ch: seq<nat>): int
    requires forall k :: 0 <= k < |ch| ==> ch[k] < |ns|
  {
    if ch == [] then 0 else ns[ch[0]].size + ChildSum(ns, ch[1..])
  }

  /** After a change of `d` has travelled up from `f`, the objects `ch` have together
      grown by `d` for every path from `f` to one of them. */
  lemma {:induction false} ChildSumUp(ns: seq<Node>, ups: seq<seq<nat>>, rank: seq<nat>, f: nat, d: int, ch: seq<nat>)
    requires Ranked(ups, rank) && f < |ups| && forall k :: 0 <= k < |ch| ==> ch[k] < |ns|
    ensures ChildSum(Up(ns, ups, rank, f, d), ch) == ChildSum(ns, ch) + d * SumPaths(ups, rank, ch, f)
  {
    if ch != [] {
      ChildSumUp(ns, ups, rank, f, d, ch[1..]);
      var a := Paths(ups, rank, f, ch[0]);
      var b := SumPaths(ups, rank, ch[1..], f);
      assert d * (a + b) == d * a + d * b;
    }
  }

  /** A folder whose size is the total of its children's sizes. */
  ghost predicate Balanced(ns: seq<Node>, x: nat)
    requires WellFormed(ns) && x < |ns|
  {
    ns[x].Folder? && ns[x].size == ChildSum(ns, ns[x].children)
  }

  /** In a graph whose links are in step, a change travelling up from `f` keeps every
      folder other than `f` that totals its children's sizes doing so. */
  lemma UpKeepsBalance(ns: seq<Node>, ups: seq<seq<nat>>, rank: seq<nat>, f: nat, d: int, x: nat)
    requires Follows(ns, ups) && Ranked(ups, rank) && Linked(ns)
    requires f < |ns| && x < |ns| && x != f && Balanced(ns, x)
    ensures WellFormed(Up(ns, ups, rank, f, d)) && Balanced(Up(ns, ups, rank, f, d), x)
  {
    var ch := ns[x].children;
    assert Gathers(ups, x, ch);
    PathsLastEdge(ups, rank, f, x, ch);
    ChildSumUp(ns, ups, rank, f, d, ch);
    var r := Up(ns, ups, rank, f, d);
    assert d * Paths(ups, rank, f, x) == d * SumPaths(ups, rank, ch, f);
  }

  /** `ms` is `ns` after `folder` has adopted `component`, which it did not list: the
      component gains the folder as a parent, the folder lists the component last and
      grows by its size, and no other object changes. */
  ghost predicate Adopts(ns: seq<Node>, ms: seq<Node>, folder: nat, component: nat)
  {
    && |ms| == |ns| && folder < |ns| && component < |ns| && ns[folder].Folder?
    && (forall y :: 0 <= y < |ns| && y != folder && y != component ==> ms[y] == ns[y])
    && (component != folder ==>
          ms[component] == Reparented(ns[component], AddedParent(ns[component].parents, folder)))
    && ms[folder] == Folder(ns[folder].name, ns[folder].size + ns[component].size,
         if component == folder then AddedParent(ns[folder].parents, folder) else ns[folder].parents,
         ns[folder].children + [component])
  }

  /** Adopting a child keeps the links of a graph in step. */
  lemma AdoptsKeepsLinked(ns: seq<Node>, ms: seq<Node>, folder: nat, component: nat)
    requires Linked(ns) && Adopts(ns, ms, folder, component) && component !in ns[folder].children
    ensures Linked(ms)
  {
    assert forall y :: 0 <= y < |ns| ==> ms[y].Folder? == ns[y].Folder?;
    assert forall y :: 0 <= y < |ns| && y != component ==> ms[y].parents == ns[y].parents;
    assert forall y :: 0 <= y < |ns| && y != folder && ms[y].Folder? ==> ms[y].children == ns[y].children;
    AdoptsWellFormed(ns, ms, folder, component);
    AdoptsInStep(ns, ms, folder, component);
  }

  /** Adopting a child keeps every link inside the arena, every parent a folder and
      every list free of repeats. */
  lemma AdoptsWellFormed(ns: seq<Node>, ms: seq<Node>, folder: nat, component: nat)
    requires WellFormed(ns) && |ms| == |ns| && folder < |ns| && component < |ns| && ns[folder].Folder?
    requires component !in ns[folder].children
    requires forall y :: 0 <= y < |ns| ==> ms[y].Folder? == ns[y].Folder?
    requires forall y :: 0 <= y < |ns| && y != component ==> ms[y].parents == ns[y].parents
    requires forall y :: 0 <= y < |ns| && y != folder && ms[y].Folder? ==> ms[y].children == ns[y].children
    requires ms[component].parents == AddedParent(ns[component].parents, folder)
    requires ms[folder].Folder? && ms[folder].children == ns[folder].children + [component]
    ensures WellFormed(ms)
  {
    forall i, k | 0 <= i < |ms| && ms[i].Folder? && 0 <= k < |ms[i].children|
      ensures ms[i].children[k] < |ms|
    {
      if i == folder && k < |ns[folder].children| {
        assert ms[i].children[k] == ns[i].children[k];
      }
    }
    forall i, k | 0 <= i < |ms| && 0 <= k < |ms[i].parents|
      ensures ms[i].parents[k] < |ms| && ms[ms[i].parents[k]].Folder?
    {
      if i == component {
        var q := ms[i].parents[k];
        assert q in ns[i].parents || q == folder;
        if q != folder {
          var j :| 0 <= j < |ns[i].parents| && ns[i].parents[j] == q;
        }
      }
    }
    assert Distinct(ns[folder].children + [component]);
  }

  /** Adopting a child keeps the two directions of every link in step. */
  lemma AdoptsInStep(ns: seq<Node>, ms: seq<Node>, folder: nat, component: nat)
    requires InStep(ns) && |ms| == |ns| && folder < |ns| && component < |ns| && ns[folder].Folder?
    requires forall y :: 0 <= y < |ns| ==> ms[y].Folder? == ns[y].Folder?
    requires forall y :: 0 <= y < |ns| && y != component ==> ms[y].parents == ns[y].parents
    requires forall y :: 0 <= y < |ns| && y != folder && ms[y].Folder? ==> ms[y].children == ns[y].children
    requires ms[component].parents == AddedParent(ns[component].parents, folder)
    requires ms[folder].Folder? && ms[folder].children == ns[folder].children + [component]
    ensures InStep(ms)
  {
    forall c, x | 0 <= c < |ms| && 0 <= x < |ms|
      ensures x in ms[c].parents <==> ms[x].Folder? && c in ms[x].children
    {
      assert x in ms[c].parents <==> x in ns[c].parents || (c == component && x == folder);
      if x == folder {
        assert c in ms[x].children <==> c in ns[x].children || c == component;
      }
    }
  }

  /** The objects of the graph, and the operations of `Component`, `File` and `Folder`
      on them. */
  class Dag {
    var nodes: seq<Node>

    constructor ()
      ensures nodes == []
    {
      nodes := [];
    }

    /** `File(name, size)`: a new file with no parents. */
    method NewFile(name: string, size: int) returns (id: nat)
      modifies this
      ensures id == |old(nodes)| && nodes == old(nodes) + [File(name, size, [])]
      ensures Linked(old(nodes)) ==> Linked(nodes)
    {
      id := |nodes|;
      nodes := nodes + [File(name, size, [])];
    }

    /** `Folder(name)`: a new folder with no parents and no children, of size 0. */
    method NewFolder(name: string) returns (id: nat)
      modifies this
      ensures id == |old(nodes)| && nodes == old(nodes) + [Folder(name, 0, [], [])]
      ensures Linked(old(nodes)) ==> Linked(nodes)
    {
      id := |nodes|;
      nodes := nodes + [Folder(name, 0, [], [])];
    }

    /** `Component.add_parent`: `parent` is appended to the object's parents unless it
        is there already; nothing else changes. */
    method AddParent(id: nat, parent: nat)
      requires id < |nodes|
      modifies this
      ensures nodes == old(nodes)[id := Reparented(old(nodes)[id], AddedParent(old(nodes)[id].parents, parent))]
    {
      var n := nodes[id];
      if parent !in n.parents {
        nodes := nodes[id := Reparented(n, n.parents + [parent])];
      }
    }

    /** `Component.remove_parent`: `parent` is taken off the object's parents when it is
        there; nothing else changes. */
    method RemoveParent(id: nat, parent: nat)
      requires id < |nodes|
      modifies this
      ensures nodes == old(nodes)[id := Reparented(old(nodes)[id], RemovedParent(old(nodes)[id].parents, parent))]
    {
      var n := nodes[id];
      if parent in n.parents {
        nodes := nodes[id := Reparented(n, RemoveFirst(n.parents, parent))];
      }
    }

    /** `Folder.add_child`: a component the folder does not list yet gets the folder as a
        parent, is listed last and adds its size to the folder's; a component already
        listed changes nothing, so adding a child twice is adding it once. */
    method AddChild(folder: nat, component: nat)
      requires folder < |nodes| && nodes[folder].Folder? && component < |nodes|
      modifies this
      ensures |nodes| == |old(nodes)| && nodes[folder].Folder? && component in nodes[folder].children
      ensures component in old(nodes)[folder].children ==> nodes == old(nodes)
      ensures component !in old(nodes)[folder].children ==>
        Adopts(old(nodes), nodes, folder, component)
      ensures Linked(old(nodes)) ==> Linked(nodes)
    {
      var f := nodes[folder];
      if component !in f.children {
        AddParent(component, folder);
        f := nodes[folder];
        nodes := nodes[folder := Folder(f.name, f.size, f.parents, f.children + [component])];
        var grown := nodes[folder].size + nodes[component].size;
        nodes := nodes[folder := Resized(nodes[folder], grown)];
        if Linked(old(nodes)) {
          AdoptsKeepsLinked(old(nodes), nodes, folder, component);
        }
      }
    }

    /** `Folder.update_size`: the folder grows by `diff`, and so does every folder above
        it, once for each upward path to it; nothing else changes. `ups` is the list of
        parents of every object and `rank` witnesses that it has no cycle. */
    method FolderUpdateSize(id: nat, diff: int, ghost ups: seq<seq<nat>>, ghost rank: seq<nat>)
      requires Follows(nodes, ups) && Ranked(ups, rank) && ParentsAreFolders(nodes)
      requires id < |nodes| && nodes[id].Folder?
      modifies this
      ensures nodes == Up(old(nodes), ups, rank, id, diff)
      ensures Follows(nodes, ups) && ParentsAreFolders(nodes)
      decreases rank[id]
    {
      ghost var target := Up(nodes, ups, rank, id, diff);
      UpStart(nodes, ups, rank, id, diff);
      var n := nodes[id];
      nodes := nodes[id := Resized(n, n.size + diff)];
      var parents := n.parents;
      for i := 0 to |parents|
        invariant Follows(nodes, ups) && ParentsAreFolders(nodes)
        invariant Below(ups, rank, parents[i..], rank[id])
        invariant UpVia(nodes, ups, rank, parents[i..], rank[id], diff) == target
      {
        UpViaStep(nodes, ups, rank, parents[i..], rank[id], diff);
        assert parents[i..][1..] == parents[i + 1..];
        FolderUpdateSize(parents[i], diff, ups, rank);
      }
      UpViaNone(nodes, ups, rank, rank[id], diff);
    }

    /** `File.update_size`: the file's size becomes `newSize`, and every folder above it
        grows by the difference once for each upward path to it; nothing else changes. */
    method FileUpdateSize(id: nat, newSize: int, ghost ups: seq<seq<nat>>, ghost rank: seq<nat>)
      requires Follows(nodes, ups) && Ranked(ups, rank) && ParentsAreFolders(nodes)
      requires id < |nodes| && nodes[id].File?
      modifies this
      ensures nodes == Up(old(nodes), ups, rank, id, newSize - old(nodes)[id].size)
      ensures nodes[id].size == newSize
    {
      var n := nodes[id];
      var diff := newSize - n.size;
      ghost var target := Up(nodes, ups, rank, id, diff);
      UpStart(nodes, ups, rank, id, diff);
      nodes := nodes[id := Resized(n, newSize)];
      var parents := n.parents;
      for i := 0 to |parents|
        invariant Follows(nodes, ups) && ParentsAreFolders(nodes)
        invariant Below(ups, rank, parents[i..], rank[id])
        invariant UpVia(nodes, ups, rank, parents[i..], rank[id], diff) == target
      {
        UpViaStep(nodes, ups, rank, parents[i..], rank[id], diff);
        assert parents[i..][1..] == parents[i + 1..];
        FolderUpdateSize(parents[i], diff, ups, rank);
      }
      UpViaNone(nodes, ups, rank, rank[id], diff);
      PathsSelf(ups, rank, id);
      assert nodes[id] == target[id] == Resized(n, n.size + diff * 1);
    }
  }
}
