/**
 * The adjacency lists `AssetGraph` fills while reading portfolio definitions
 * (`portfolio_tool.py`). Each bucket is a pair of Python dicts keyed by the same
 * names in the same insertion order: one maps a name to the list of its parents
 * (owning portfolios), the other to the parallel list of quantities. There is a
 * "stock" bucket and a "portfolio" bucket.
 */
module Adjacency {
  import opened Wrappers
  import opened Text

  /** A pair of parallel dicts: key insertion order, name -> parents, name -> weights. */
  datatype Bucket = Bucket(order: seq<string>, parents: map<string, seq<string>>, weights: map<string, seq<real>>)

  /** Both buckets of a graph under construction. */
  datatype Lists = Lists(stocks: Bucket, portfolios: Bucket)

  const NoBucket := Bucket([], map[], map[])
  const NoLists := Lists(NoBucket, NoBucket)

  ghost predicate Distinct(s: seq<string>)
  {
    forall i, j :: 0 <= i < j < |s| ==> s[i] != s[j]
  }

  /** A bucket as Python keeps it: the key order lists each key of both dicts once, and
      every name's parent and weight lists have the same length. */
  ghost predicate BucketOk(b: Bucket)
  {
    && Distinct(b.order)
    && (forall k :: k in b.parents <==> k in b.order)
    && (forall k :: k in b.weights <==> k in b.order)
    && (forall k :: k in b.parents && k in b.weights ==> |b.parents[k]| == |b.weights[k]|)
  }

  ghost predicate ListsOk(g: Lists)
  {
    BucketOk(g.stocks) && BucketOk(g.portfolios)
  }

  lemma NoListsOk()
    ensures ListsOk(NoLists)
  {
  }

  /** The stock-bucket half of `add_component` with a parent: the parent and the
      quantity are appended to the name's lists, which are created (as new last key)
      when the name is new. */
  function AddEdge(b: Bucket, name: string, parent: string, qty: real): (r: Bucket)
    requires BucketOk(b)
    ensures BucketOk(r)
    ensures name in r.parents && name in r.weights
    ensures r.parents[name] == (if name in b.parents then b.parents[name] else []) + [parent]
    ensures r.weights[name] == (if name in b.parents then b.weights[name] else []) + [qty]
    ensures r.order == if name in b.parents then b.order else b.order + [name]
    ensures forall k :: k in b.parents && k != name ==>
      k in r.parents && r.parents[k] == b.parents[k] && k in r.weights && r.weights[k] == b.weights[k]
  {
    if name in b.parents then
      Bucket(b.order, b.parents[name := b.parents[name] + [parent]], b.weights[name := b.weights[name] + [qty]])
    else
      Bucket(b.order + [name], b.parents[name := [parent]], b.weights[name := [qty]])
  }

  /** The portfolio-bucket half of `add_component` without a parent: empty lists are
      created for a new name; an existing name keeps its lists untouched. */
  function AddContainer(b: Bucket, name: string): (r: Bucket)
    requires BucketOk(b)
    ensures BucketOk(r)
    ensures name in r.parents && name in r.weights
    ensures name in b.parents ==> r == b
    ensures name !in b.parents ==>
      && r.order == b.order + [name] && r.parents[name] == [] && r.weights[name] == []
      && (forall k :: k in b.parents ==> k in r.parents && r.parents[k] == b.parents[k] && k in r.weights && r.weights[k] == b.weights[k])
  {
    if name in b.parents then b
    else Bucket(b.order + [name], b.parents[name := []], b.weights[name := []])
  }

  /** `add_component(name, qty, parent)`. `None` is the `AssertionError` the method
      raises when exactly one of `parent` and `qty` is given. */
  function AddComponent(g: Lists, name: string, qty: Option<real>, parent: Option<string>): (r: Option<Lists>)
    requires ListsOk(g)
    ensures r.None? <==> parent.Some? != qty.Some?
    ensures r.Some? ==> ListsOk(r.value)
    ensures r.Some? && parent.Some? ==> r.value.portfolios == g.portfolios && r.value.stocks == AddEdge(g.stocks, name, parent.value, qty.value)
    ensures r.Some? && parent.None? ==> r.value.stocks == g.stocks && r.value.portfolios == AddContainer(g.portfolios, name)
  {
    if parent.None? != qty.Some? then
      if parent.Some? then Some(Lists(AddEdge(g.stocks, name, parent.value, qty.value), g.portfolios))
      else Some(Lists(g.stocks, AddContainer(g.portfolios, name)))
    else None
  }

  /** The exceptions the build phase raises. */
  datatype BuildError =
    | IndexError           // an empty record (`line_items[1]` on an empty list)
    | AssertionError       // `add_component` given exactly one of `parent` and `qty`
    | NoContainer          // ValueError: a component before any portfolio name
    | BadQuantity(text: string)  // ValueError from `float(quantity)`
    | TooManyFields        // AttributeError: three or more fields
    | KeyError(name: string)     // `_link_nodes` finds an owner that is not a portfolio

  /** The state of `add_components_from` after some records: the lists, the current
      `portfolio_name`, and the exception raised, if any. */
  datatype Declaration = Declaration(lists: Lists, current: string, err: Option<BuildError>)

  /** The column header row `NAME,SHARES`, which `add_components_from` skips. */
  predicate IsHeaderRow(ticker: string, quantity: string)
  {
    Upper(Strip(ticker)) == "NAME" && Upper(Strip(quantity)) == "SHARES"
  }

  /** The records that raise in `add_components_from`. */
  predicate Rejected(current: string, items: seq<string>, parse: string -> Option<real>)
  {
    || items == []
    || (|items| >= 2 && items[1] != "" &&
         (|items| > 2 || (!IsHeaderRow(items[0], items[1]) && (current == "" || parse(items[1]).None?))))
  }

  /** One iteration of the `add_components_from` loop. `parse` is `float()` on the
      quantity text (`None` when it raises). */
  function DeclareRecord(g: Lists, current: string, items: seq<string>, parse: string -> Option<real>): (r: Declaration)
    requires ListsOk(g)
    ensures ListsOk(r.lists)
    ensures r.err.Some? <==> Rejected(current, items, parse)
    ensures r.err.Some? ==> r.lists == g
    ensures items == [] ==> r.err == Some(IndexError)
    ensures |items| > 2 && items[1] != "" ==> r.err == Some(TooManyFields)
    ensures |items| == 2 && items[1] != "" && !IsHeaderRow(items[0], items[1]) && current == "" ==> r.err == Some(NoContainer)
    ensures r.err.None? && items != [] && (|items| == 1 || items[1] == "") ==>
      r.current == items[0] && r.lists.stocks == g.stocks && r.lists.portfolios == AddContainer(g.portfolios, items[0])
    ensures r.err.None? && |items| == 2 && items[1] != "" ==>
      r.current == current && r.lists.portfolios == g.portfolios &&
      (IsHeaderRow(items[0], items[1]) ==> r.lists == g)
    ensures |items| == 2 && items[1] != "" && !IsHeaderRow(items[0], items[1]) && current != "" && parse(items[1]).None? ==>
      r.err == Some(BadQuantity(items[1]))
    ensures r.err.None? && |items| == 2 && items[1] != "" && !IsHeaderRow(items[0], items[1]) ==>
      r.lists.stocks == AddEdge(g.stocks, items[0], current, parse(items[1]).value)
  {
    if items == [] then Declaration(g, current, Some(IndexError))
    else if |items| == 1 || |items[1]| == 0 then
      Declaration(AddComponent(g, items[0], None, None).value, items[0], None)
    else if |items| == 2 then
      if IsHeaderRow(items[0], items[1]) then Declaration(g, current, None)
      else if current != "" then
        match parse(items[1])
        case None => Declaration(g, current, Some(BadQuantity(items[1])))
        case Some(q) => Declaration(AddComponent(g, items[0], Some(q), Some(current)).value, current, None)
      else Declaration(g, current, Some(NoContainer))
    else Declaration(g, current, Some(TooManyFields))
  }

  /** The whole `add_components_from` loop: stops at the first record that raises. */
  function Declare(g: Lists, current: string, records: seq<seq<string>>, parse: string -> Option<real>): (r: Declaration)
    requires ListsOk(g)
    ensures ListsOk(r.lists)
    decreases |records|
  {
    if records == [] then Declaration(g, current, None)
    else
      var d := DeclareRecord(g, current, records[0], parse);
      if d.err.Some? then d else Declare(d.lists, d.current, records[1..], parse)
  }

  /** Every parent recorded in the stock bucket is a declared container, and every
      portfolio bucket list is still empty (only `fix_structure` fills them). */
  ghost predicate OwnersDeclared(g: Lists)
  {
    && (forall k, i :: k in g.stocks.parents && 0 <= i < |g.stocks.parents[k]| ==> g.stocks.parents[k][i] in g.portfolios.parents)
    && (forall k :: k in g.portfolios.parents ==> g.portfolios.parents[k] == [])
  }

  lemma {:induction false} DeclareRecordKeepsOwnersDeclared(g: Lists, current: string, items: seq<string>, parse: string -> Option<real>)
    requires ListsOk(g) && OwnersDeclared(g) && (current == "" || current in g.portfolios.parents)
    ensures var r := DeclareRecord(g, current, items, parse);
      OwnersDeclared(r.lists) && (r.current == "" || r.current in r.lists.portfolios.parents)
  {
    var r := DeclareRecord(g, current, items, parse);
    if r.err.None? && items != [] && |items| >= 2 && items[1] != "" && !IsHeaderRow(items[0], items[1]) {
      var s := r.lists.stocks;
      forall k, i | k in s.parents && 0 <= i < |s.parents[k]|
        ensures s.parents[k][i] in r.lists.portfolios.parents
      {
        if k != items[0] {
          assert s.parents[k] == g.stocks.parents[k];
        } else if i < |s.parents[k]| - 1 {
          assert s.parents[k][i] == g.stocks.parents[k][i];
        }
      }
    }
  }

  /** A successful `add_components_from` stops nowhere, and the lists it builds from
      lists whose parents are all declared again have only declared parents: every
      stock is owned by some `NAME`-line container. */
  lemma {:induction false} DeclareKeepsOwnersDeclared(g: Lists, current: string, records: seq<seq<string>>, parse: string -> Option<real>)
    requires ListsOk(g) && OwnersDeclared(g) && (current == "" || current in g.portfolios.parents)
    ensures OwnersDeclared(Declare(g, current, records, parse).lists)
    decreases |records|
  {
    if records != [] {
      var d := DeclareRecord(g, current, records[0], parse);
      DeclareRecordKeepsOwnersDeclared(g, current, records[0], parse);
      if d.err.None? {
        DeclareKeepsOwnersDeclared(d.lists, d.current, records[1..], parse);
      }
    }
  }

  // ---------------------------------------------------------------------------
  // fix_structure

  /** The names in `s` that are absent from `names`, in order. */
  function Without(s: seq<string>, names: seq<string>): (r: seq<string>)
    ensures forall k :: k in r <==> k in s && k !in names
    ensures Distinct(s) ==> Distinct(r)
  {
    if s == [] then []
    else
      var rest := Without(s[1..], names);
      assert Distinct(s) ==> Distinct(s[1..]) && s[0] !in s[1..];
      if s[0] in names then rest else [s[0]] + rest
  }

  /** `to_move`: the stock-bucket keys, in order, that are also portfolio keys. */
  function ToMove(s: seq<string>, p: map<string, seq<string>>): (r: seq<string>)
    ensures forall k :: k in r <==> k in s && k in p
    ensures Distinct(s) ==> Distinct(r)
  {
    if s == [] then []
    else
      var rest := ToMove(s[1..], p);
      assert Distinct(s) ==> Distinct(s[1..]) && s[0] !in s[1..];
      if s[0] in p then [s[0]] + rest else rest
  }

  /** A name `fix_structure` can move: it has lists in both buckets. */
  ghost predicate Present(g: Lists, k: string)
  {
    k in g.stocks.parents && k in g.stocks.weights && k in g.portfolios.parents && k in g.portfolios.weights
  }

  /** One iteration of the `fix_structure` loop: the name's stock lists are popped
      and appended to its portfolio lists. */
  function Move(g: Lists, name: string): Lists
    requires Present(g, name)
  {
    var s := g.stocks;
    var p := g.portfolios;
    Lists(Bucket(Without(s.order, [name]), s.parents - {name}, s.weights - {name}),
          Bucket(p.order, p.parents[name := p.parents[name] + s.parents[name]],
                          p.weights[name := p.weights[name] + s.weights[name]]))
  }

  ghost predicate Movable(g: Lists, names: seq<string>)
  {
    Distinct(names) && forall k :: k in names ==> Present(g, k)
  }

  /** The `fix_structure` loop over the given names. */
  function MoveAll(g: Lists, names: seq<string>): Lists
    requires Movable(g, names)
    decreases |names|
  {
    if names == [] then g
    else
      MovableAfterMove(g, names);
      MoveAll(Move(g, names[0]), names[1..])
  }

  lemma MovableAfterMove(g: Lists, names: seq<string>)
    requires Movable(g, names) && names != []
    ensures Movable(Move(g, names[0]), names[1..])
  {
    forall k | k in names[1..]
      ensures Present(Move(g, names[0]), k)
    {
      var j :| 0 <= j < |names[1..]| && names[1..][j] == k;
      assert names[j + 1] == k && k in names && Present(g, k) && k != names[0];
    }
  }

  lemma MoveKeepsOk(g: Lists, name: string)
    requires ListsOk(g) && Present(g, name)
    ensures ListsOk(Move(g, name))
  {
    var s := Move(g, name).stocks;
    forall i, j | 0 <= i < j < |s.order|
      ensures s.order[i] != s.order[j]
    {
    }
  }

  lemma {:induction false} MoveAllKeepsOk(g: Lists, names: seq<string>)
    requires ListsOk(g) && Movable(g, names)
    ensures ListsOk(MoveAll(g, names))
    decreases |names|
  {
    if names != [] {
      MoveKeepsOk(g, names[0]);
      var h := Move(g, names[0]);
      MovableAfterMove(g, names);
      MoveAllKeepsOk(h, names[1..]);
    }
  }

  lemma {:induction false} WithoutWithout(s: seq<string>, a: seq<string>, b: seq<string>)
    ensures Without(Without(s, a), b) == Without(s, a + b)
  {
    if s != [] {
      WithoutWithout(s[1..], a, b);
    }
  }

  lemma {:induction false} WithoutNothing(s: seq<string>)
    ensures Without(s, []) == s
  {
    if s != [] {
      WithoutNothing(s[1..]);
    }
  }

  /** What the `fix_structure` loop does to the stock bucket: the moved names leave it,
      which otherwise keeps its order and its lists. */
  lemma {:induction false} MoveAllStocks(g: Lists, names: seq<string>)
    requires Movable(g, names)
    ensures var r := MoveAll(g, names).stocks;
      && r.order == Without(g.stocks.order, names)
      && (forall k :: k in r.parents <==> k in g.stocks.parents && k !in names)
      && (forall k :: k in r.weights <==> k in g.stocks.weights && k !in names)
      && (forall k :: k in r.parents ==> r.parents[k] == g.stocks.parents[k])
      && (forall k :: k in r.weights ==> r.weights[k] == g.stocks.weights[k])
    decreases |names|
  {
    if names == [] {
      WithoutNothing(g.stocks.order);
    } else {
      var h := Move(g, names[0]);
      MovableAfterMove(g, names);
      MoveAllStocks(h, names[1..]);
      WithoutWithout(g.stocks.order, [names[0]], names[1..]);
      assert [names[0]] + names[1..] == names;
    }
  }

  /** What the `fix_structure` loop does to the portfolio bucket: each moved name's lists
      become its old portfolio lists followed by its old stock lists; the key order and
      every other name's lists stay. */
  lemma {:induction false} MoveAllPortfolios(g: Lists, names: seq<string>)
    requires Movable(g, names)
    ensures var r := MoveAll(g, names).portfolios;
      && r.order == g.portfolios.order
      && (forall k :: k in r.parents <==> k in g.portfolios.parents)
      && (forall k :: k in r.weights <==> k in g.portfolios.weights)
      && (forall k :: k in g.portfolios.parents ==>
            r.parents[k] == g.portfolios.parents[k] + (if k in names then g.stocks.parents[k] else []))
      && (forall k :: k in g.portfolios.weights ==>
            r.weights[k] == g.portfolios.weights[k] + (if k in names then g.stocks.weights[k] else []))
    decreases |names|
  {
    if names != [] {
      var h := Move(g, names[0]);
      MovableAfterMove(g, names);
      assert names[0] !in names[1..];
      MoveAllPortfolios(h, names[1..]);
      forall k | k in names[1..]
        ensures k != names[0] && h.stocks.parents[k] == g.stocks.parents[k] && h.stocks.weights[k] == g.stocks.weights[k]
      {
      }
      forall k
        ensures k in names <==> k == names[0] || k in names[1..]
      {
        assert names == [names[0]] + names[1..];
      }
    }
  }

  /** `fix_structure()`. */
  function FixStructure(g: Lists): (r: Lists)
    requires ListsOk(g)
    ensures ListsOk(r)
  {
    var names := ToMove(g.stocks.order, g.portfolios.parents);
    MoveAllKeepsOk(g, names);
    MoveAll(g, names)
  }

  /** The state of the `fix_structure` loop: moving the remaining names reaches `target`. */
  ghost predicate Moving(g: Lists, rest: seq<string>, target: Lists)
  {
    ListsOk(g) && Movable(g, rest) && MoveAll(g, rest) == target
  }

  lemma MovingStart(g: Lists)
    requires ListsOk(g)
    ensures Moving(g, ToMove(g.stocks.order, g.portfolios.parents), FixStructure(g))
  {
  }

  lemma MovingHead(g: Lists, rest: seq<string>, target: Lists)
    requires Moving(g, rest, target) && rest != []
    ensures rest[0] in g.stocks.parents && rest[0] in g.stocks.weights
    ensures rest[0] in g.portfolios.parents && rest[0] in g.portfolios.weights
  {
    assert rest[0] in rest;
  }

  lemma MovingStep(g: Lists, rest: seq<string>, target: Lists)
    requires Moving(g, rest, target) && rest != []
    ensures Present(g, rest[0])
    ensures Moving(Move(g, rest[0]), rest[1..], target)
  {
    MoveKeepsOk(g, rest[0]);
    MovableAfterMove(g, rest);
  }

  lemma MovingDone(g: Lists, target: Lists)
    requires Moving(g, [], target)
    ensures g == target && ListsOk(g)
  {
  }

  /** `fix_structure` keeps in the stock bucket exactly the names that were not also
      portfolio keys, with their lists. */
  lemma FixStructureStocks(g: Lists)
    requires ListsOk(g)
    ensures var r := FixStructure(g).stocks;
      && (forall k :: k in r.parents <==> k in g.stocks.parents && k !in g.portfolios.parents)
      && (forall k :: k in r.parents ==> r.parents[k] == g.stocks.parents[k] && r.weights[k] == g.stocks.weights[k])
      && r.order == Without(g.stocks.order, ToMove(g.stocks.order, g.portfolios.parents))
  {
    MoveAllStocks(g, ToMove(g.stocks.order, g.portfolios.parents));
  }

  /** `fix_structure` keeps the portfolio keys and their order; each name that was also
      a stock key gets its old portfolio lists followed by its old stock lists. */
  lemma FixStructurePortfolios(g: Lists)
    requires ListsOk(g)
    ensures var r := FixStructure(g).portfolios;
      && r.order == g.portfolios.order
      && (forall k :: k in r.parents <==> k in g.portfolios.parents)
      && (forall k :: k in g.portfolios.parents ==>
            && r.parents[k] == g.portfolios.parents[k] + (if k in g.stocks.parents then g.stocks.parents[k] else [])
            && r.weights[k] == g.portfolios.weights[k] + (if k in g.stocks.parents then g.stocks.weights[k] else []))
  {
    MoveAllPortfolios(g, ToMove(g.stocks.order, g.portfolios.parents));
  }

  /** The keys left in each bucket by the `fix_structure` loop. */
  lemma {:induction false} MoveAllKeys(g: Lists, names: seq<string>)
    requires Movable(g, names)
    ensures forall k :: k in MoveAll(g, names).stocks.parents <==> k in g.stocks.parents && k !in names
    ensures forall k :: k in MoveAll(g, names).portfolios.parents <==> k in g.portfolios.parents
    decreases |names|
  {
    if names != [] {
      MovableAfterMove(g, names);
      MoveAllKeys(Move(g, names[0]), names[1..]);
      assert forall k :: k in names <==> k == names[0] || k in names[1..];
    }
  }

  /** Calling `fix_structure` a second time (as `init_components` does) changes nothing. */
  lemma FixStructureIdempotent(g: Lists)
    requires ListsOk(g)
    ensures FixStructure(FixStructure(g)) == FixStructure(g)
  {
    FixStructureSeparates(g);
  }

  /** After `fix_structure` the stock and portfolio buckets have no key in common. */
  lemma FixStructureSeparates(g: Lists)
    requires ListsOk(g)
    ensures var r := FixStructure(g);
      forall k :: k in r.stocks.parents ==> k !in r.portfolios.parents
    ensures var r := FixStructure(g);
      ToMove(r.stocks.order, r.portfolios.parents) == []
  {
    var r := FixStructure(g);
    MoveAllKeys(g, ToMove(g.stocks.order, g.portfolios.parents));
    assert forall k :: k in r.stocks.order ==> k in r.stocks.parents;
    NothingToMove(r.stocks.order, r.portfolios.parents);
  }

  /** Nothing is moved when no stock key is a portfolio key. */
  lemma NothingToMove(s: seq<string>, p: map<string, seq<string>>)
    requires forall k :: k in s ==> k !in p
    ensures ToMove(s, p) == []
  {
  }

  /** `fix_structure` keeps every parent a declared container and empties no list. */
  lemma FixStructureKeepsOwners(g: Lists)
    requires ListsOk(g) && OwnersDeclared(g)
    ensures var r := FixStructure(g);
      forall k, i :: k in MergedParents(r) && 0 <= i < |MergedParents(r)[k]| ==> MergedParents(r)[k][i] in r.portfolios.parents
  {
    var r := FixStructure(g);
    FixStructureStocks(g);
    FixStructurePortfolios(g);
    forall k, i | k in MergedParents(r) && 0 <= i < |MergedParents(r)[k]|
      ensures MergedParents(r)[k][i] in r.portfolios.parents
    {
      if k in r.portfolios.parents {
        assert g.portfolios.parents[k] == [];
        if k in g.stocks.parents {
          assert r.portfolios.parents[k] == g.stocks.parents[k];
        }
      }
    }
  }

  // ---------------------------------------------------------------------------
  // merged_view and _init_prices

  /** The key order of `ChainMap(portfolios, stocks)`: stock keys, then the portfolio
      keys that are not stock keys. */
  function MergedKeys(g: Lists): seq<string>
  {
    g.stocks.order + Without(g.portfolios.order, g.stocks.order)
  }

  /** `merged_view[0]`: a name's parents, looked up in the portfolio bucket first. */
  function MergedParents(g: Lists): (m: map<string, seq<string>>)
    ensures forall k :: k in m <==> k in g.stocks.parents || k in g.portfolios.parents
    ensures forall k :: k in g.portfolios.parents ==> m[k] == g.portfolios.parents[k]
    ensures forall k :: k in g.stocks.parents && k !in g.portfolios.parents ==> m[k] == g.stocks.parents[k]
  {
    map k | k in g.stocks.parents.Keys + g.portfolios.parents.Keys ::
      if k in g.portfolios.parents then g.portfolios.parents[k] else g.stocks.parents[k]
  }

  /** `merged_view[1]`: a name's weights, looked up in the portfolio bucket first. */
  function MergedWeights(g: Lists): (m: map<string, seq<real>>)
    ensures forall k :: k in m <==> k in g.stocks.weights || k in g.portfolios.weights
    ensures forall k :: k in g.portfolios.weights ==> m[k] == g.portfolios.weights[k]
    ensures forall k :: k in g.stocks.weights && k !in g.portfolios.weights ==> m[k] == g.stocks.weights[k]
  {
    map k | k in g.stocks.weights.Keys + g.portfolios.weights.Keys ::
      if k in g.portfolios.weights then g.portfolios.weights[k] else g.stocks.weights[k]
  }

  /** In well-formed buckets the two merged views have the same keys and parallel
      lists, so zipping them pairs every parent with its weight and drops none. */
  lemma MergedListsParallel(g: Lists)
    requires ListsOk(g)
    ensures forall k :: k in MergedParents(g) <==> k in MergedWeights(g)
    ensures forall k :: k in MergedParents(g) && k in MergedWeights(g) ==> |MergedParents(g)[k]| == |MergedWeights(g)[k]|
  {
  }

  /** The merged view lists every name of either bucket exactly once. */
  lemma MergedKeysSpec(g: Lists)
    requires ListsOk(g)
    ensures Distinct(MergedKeys(g))
    ensures forall k :: k in MergedKeys(g) <==> k in MergedParents(g)
  {
    var a := g.stocks.order;
    var b := Without(g.portfolios.order, a);
    var m := a + b;
    forall i, j | 0 <= i < j < |m|
      ensures m[i] != m[j]
    {
      if j < |a| {
      } else if i >= |a| {
        assert m[i] == b[i - |a|] && m[j] == b[j - |a|];
      } else {
        assert m[j] == b[j - |a|] && m[j] !in a;
      }
    }
  }

  /** `all_refidx`: `{ticker: i for i, ticker in enumerate(keys)}` (a later duplicate
      would overwrite an earlier one). */
  function Enumerate(keys: seq<string>): map<string, nat>
  {
    if keys == [] then map[] else Enumerate(keys[..|keys| - 1])[keys[|keys| - 1] := |keys| - 1]
  }

  /** On distinct keys `all_refidx` is a bijection from the names onto `0..n-1`:
      each name maps to its position and every position is some name's. */
  lemma {:induction false} EnumerateSpec(keys: seq<string>)
    requires Distinct(keys)
    ensures forall k :: k in Enumerate(keys) <==> k in keys
    ensures forall i :: 0 <= i < |keys| ==> Enumerate(keys)[keys[i]] == i
    ensures forall k :: k in Enumerate(keys) ==> Enumerate(keys)[k] < |keys|
  {
    if keys != [] {
      var front := keys[..|keys| - 1];
      EnumerateSpec(front);
      forall i | 0 <= i < |keys| - 1
        ensures Enumerate(keys)[keys[i]] == i
      {
        assert keys[i] == front[i] && keys[i] != keys[|keys| - 1];
      }
      forall k
        ensures k in Enumerate(keys) <==> k in keys
      {
        if k in keys && k != keys[|keys| - 1] {
          var i :| 0 <= i < |keys| && keys[i] == k;
          assert front[i] == k;
        }
      }
    }
  }
}
