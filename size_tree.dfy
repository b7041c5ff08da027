/**
 * The single-parent size tree at the top of `test.py`: files and folders joined by a
 * `parent` reference, where a folder's `_size` grows by the size of every child it
 * adopts and a change of a file's size travels up the chain of parents. Every object
 * is an entry of an arena, and a reference to it is its index there.
 */
module SizeTree {
  import opened Wrappers

  /** A `File` (its `size`) or a `Folder` (its `_size` and `children`), with its `parent`. */
  datatype Node =
    | File(name: string, size: int, parent: Option<nat>)
    | Folder(name: string, size: int, parent: Option<nat>, children: seq<nat>)

  /** The object `n` with its size set to `size`. */
  function Resized(n: Node, size: int): (r: Node)
    ensures r.size == size && r.name == n.name && r.parent == n.parent && r.File? == n.File?
    ensures r.Folder? ==> r.children == n.children
  {
    match n
    case File(name, _, parent) => File(name, size, parent)
    case Folder(name, _, parent, children) => Folder(name, size, parent, children)
  }

  /** The object `n` with its parent set to `parent`. */
  function Adopted(n: Node, parent: nat): (r: Node)
    ensures r.size == n.size && r.name == n.name && r.parent == Some(parent) && r.File? == n.File?
    ensures r.Folder? ==> r.children == n.children
  {
    match n
    case File(name, size, _) => File(name, size, Some(parent))
    case Folder(name, size, _, children) => Folder(name, size, Some(parent), children)
  }

  /** The objects `ns` after each of `ids` has grown by `d`. */
  function Grown(ns: seq<Node>, ids: seq<nat>, d: int): (r: seq<Node>)
    ensures |r| == |ns|
    ensures forall i :: 0 <= i < |ns| ==> r[i] == if i in ids then Resized(ns[i], ns[i].size + d) else ns[i]
    ensures ids == [] ==> r == ns
  {
    seq(|ns|, i requires 0 <= i < |ns| => if i in ids then Resized(ns[i], ns[i].size + d) else ns[i])
  }

  /** Growing `id` first and then `ids` is growing `[id] + ids`, when `id` is not in `ids`. */
  lemma GrownStep(ns: seq<Node>, id: nat, ids: seq<nat>, d: int)
    requires id < |ns| && id !in ids
    ensures Grown(ns[id := Resized(ns[id], ns[id].size + d)], ids, d) == Grown(ns, [id] + ids, d)
  {
    var lhs := Grown(ns[id := Resized(ns[id], ns[id].size + d)], ids, d);
    var rhs := Grown(ns, [id] + ids, d);
    forall i | 0 <= i < |ns|
      ensures lhs[i] == rhs[i]
    {
      assert i in [id] + ids <==> i == id || i in ids;
    }
  }

  /** `chain` is `id` followed by its ancestors up to an object with no parent; one
      exists exactly when following parents from `id` ends. */
  ghost predicate IsLineage(ns: seq<Node>, id: nat, chain: seq<nat>)
  {
    && |chain| > 0 && chain[0] == id
    && (forall k :: 0 <= k < |chain| ==> chain[k] < |ns|)
    && (forall k :: 0 <= k < |chain| - 1 ==> ns[chain[k]].parent == Some(chain[k + 1]))
    && ns[chain[|chain| - 1]].parent.None?
  }

  /** A lineage goes on past `id` exactly when `id` has a parent, which comes next. */
  lemma LineageHead(ns: seq<Node>, id: nat, chain: seq<nat>)
    requires IsLineage(ns, id, chain)
    ensures id < |ns| && (|chain| == 1 <==> ns[id].parent.None?)
    ensures |chain| > 1 ==> ns[id].parent == Some(chain[1]) && IsLineage(ns, chain[1], chain[1..])
  {
    if |chain| > 1 {
      assert ns[chain[0]].parent == Some(chain[1]);
    }
  }

  /** Every object listed in `ids` is a folder. */
  ghost predicate FoldersAt(ns: seq<Node>, ids: seq<nat>)
  {
    forall k :: 0 <= k < |ids| ==> ids[k] < |ns| && ns[ids[k]].Folder?
  }

  /** The parent links determine the lineage: there is at most one. */
  lemma {:induction false} LineageUnique(ns: seq<Node>, id: nat, c1: seq<nat>, c2: seq<nat>)
    requires IsLineage(ns, id, c1) && IsLineage(ns, id, c2)
    ensures c1 == c2
    decreases |c1|
  {
    LineageHead(ns, id, c1);
    LineageHead(ns, id, c2);
    if |c1| > 1 {
      LineageUnique(ns, c1[1], c1[1..], c2[1..]);
      assert c1 == [id] + c1[1..] && c2 == [id] + c2[1..];
    }
  }

  /** No object occurs twice in a lineage, so a change reaches each ancestor once. */
  lemma {:induction false} LineageDistinct(ns: seq<Node>, id: nat, chain: seq<nat>)
    requires IsLineage(ns, id, chain)
    ensures forall j, k :: 0 <= j < k < |chain| ==> chain[j] != chain[k]
    decreases |chain|
  {
    if |chain| > 1 {
      LineageDistinct(ns, chain[1], chain[1..]);
      forall k | 0 < k < |chain|
        ensures chain[0] != chain[k]
      {
        if chain[k] == id {
          // following the links from the repeat retraces `chain`, which is then longer
          LineageUnique(ns, id, chain, chain[k..]);
        }
      }
    }
  }

  /** The objects of the tree, and the operations of `File` and `Folder` on them. */
  class Tree {
    var nodes: seq<Node>

    constructor ()
      ensures nodes == []
    {
      nodes := [];
    }

    /** `get_size`: a file's `size`, a folder's `_size`. */
    function GetSize(id: nat): (r: int)
      reads this
      requires id < |nodes|
      ensures r == nodes[id].size
    {
      match nodes[id]
      case File(_, size, _) => size
      case Folder(_, size, _, _) => size
    }

    /** `File(name, size, parent)`: a new file whose size is `size`; the parent, if any,
        does not list it as a child. */
    method NewFile(name: string, size: int, parent: Option<nat>) returns (id: nat)
      requires parent.Some? ==> parent.value < |nodes|
      modifies this
      ensures id == |old(nodes)| && nodes == old(nodes) + [File(name, size, parent)]
      ensures GetSize(id) == size
    {
      id := |nodes|;
      nodes := nodes + [File(name, size, parent)];
    }

    /** `Folder(name, parent)`: a new folder with no children, whose size starts at 0. */
    method NewFolder(name: string, parent: Option<nat>) returns (id: nat)
      requires parent.Some? ==> parent.value < |nodes|
      modifies this
      ensures id == |old(nodes)| && nodes == old(nodes) + [Folder(name, 0, parent, [])]
      ensures GetSize(id) == 0
    {
      id := |nodes|;
      nodes := nodes + [Folder(name, 0, parent, [])];
    }

    /** `Folder.add_child`: the component's parent becomes the folder, which lists it
        last and grows by its size; the folder's own ancestors are left as they were. */
    method AddChild(folder: nat, component: nat)
      requires folder < |nodes| && nodes[folder].Folder? && component < |nodes|
      modifies this
      ensures |nodes| == |old(nodes)|
      ensures nodes[component].parent == Some(folder)
      ensures nodes[folder].Folder? && nodes[folder].name == old(nodes)[folder].name
      ensures nodes[folder].children == old(nodes)[folder].children + [component]
      ensures nodes[folder].size == old(nodes)[folder].size + old(GetSize(component))
      ensures component != folder ==>
        nodes[component] == Adopted(old(nodes)[component], folder) &&
        nodes[folder].parent == old(nodes)[folder].parent
      ensures forall x :: 0 <= x < |nodes| && x != folder && x != component ==> nodes[x] == old(nodes)[x]
    {
      var c := nodes[component];
      nodes := nodes[component := Adopted(c, folder)];
      var f := nodes[folder];
      nodes := nodes[folder := f.(children := f.children + [component])];
      var grown := nodes[folder].size + GetSize(component);
      nodes := nodes[folder := Resized(nodes[folder], grown)];
    }

    /** `Folder.update_size`: the folder and each of its ancestors, listed by `chain`,
        grow by `diff`, and nothing else changes. */
    method FolderUpdateSize(id: nat, diff: int, ghost chain: seq<nat>)
      requires IsLineage(nodes, id, chain) && FoldersAt(nodes, chain)
      modifies this
      ensures nodes == Grown(old(nodes), chain, diff)
      decreases |chain|
    {
      ghost var before := nodes;
      LineageHead(nodes, id, chain);
      var n := nodes[id];
      nodes := nodes[id := Resized(n, n.size + diff)];
      LineageDistinct(before, id, chain);
      assert chain == [id] + chain[1..];
      if n.parent.Some? {
        FolderUpdateSize(n.parent.value, diff, chain[1..]);
      }
      GrownStep(before, id, chain[1..], diff);
    }

    /** `File.update_size`: the file's size becomes `newSize`, and each of its ancestors,
        listed by `chain` after the file, grows by the difference; nothing else changes. */
    method FileUpdateSize(id: nat, newSize: int, ghost chain: seq<nat>)
      requires IsLineage(nodes, id, chain) && nodes[id].File? && FoldersAt(nodes, chain[1..])
      modifies this
      ensures nodes == Grown(old(nodes)[id := Resized(old(nodes)[id], newSize)], chain[1..], newSize - old(GetSize(id)))
    {
      LineageHead(nodes, id, chain);
      var n := nodes[id];
      var oldSize := GetSize(id);
      nodes := nodes[id := Resized(n, newSize)];
      var diff := newSize - oldSize;
      if n.parent.Some? {
        FolderUpdateSize(n.parent.value, diff, chain[1..]);
      }
    }
  }
}
