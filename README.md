# Portfolio valuation graph, in Dafny

This project models the valuation graph of `pricing-eng-graph`.

**`AssetGraph`** reads portfolio declarations and keeps, for each name, its parents and quantities in adjacency lists. There are two buckets:

- a "stock" bucket for names declared with a parent and a quantity;
- a "portfolio" bucket for names declared as containers.

`fix_structure` moves a name that is in both buckets into the portfolio bucket. `init_components` then does three things:

- gives every name an index into one shared price array, in which every slot starts unknown (NaN);
- creates a `Stock` or a `Portfolio` node per name;
- links each portfolio to its assets and weights.

**Propagation.** Writing a stock's price starts a breadth-first walk up the owners. The walk recomputes each reached portfolio as the dot product of its children's prices and weights. It does so only when they are all known.

**The block reader.** `read_csv_portfolios_weights` turns the lines of a declarations file into name-headed blocks.

**The size composite.** `test.py` holds two versions of a file/folder composite whose folders keep a running size:

- a single-parent tree;
- a multi-parent DAG.

They are modelled as two separate modules.

Modules, following the files of the program:

- `Wrappers`: `Option` and `Outcome`.
- `Text`: `strip` over Python's whitespace characters, ASCII `upper` and single-character `split`. `SplitJoin` and `JoinSplit` show that splitting and joining are inverses on pieces that do not contain the separator.
- `DataIo` (`data_io.py`):
  - the header check;
  - `read_csv_prices`;
  - `read_csv_portfolios_weights` as a method with a loop. It is proved against a reference description: the entries of the accepted lines, in file order.
- `Adjacency`: the two buckets and the build-phase operations on them, as functions over values. It covers `add_component`, `add_components_from`, `fix_structure`, `merged_view` and `all_refidx`.
- `Linking`: the nodes `_init_nodes` creates, and `_link_nodes` as a fold over the declared edges.
- `Building`: what `init_components` produces when it succeeds, and when it does.
- `Valuation`: the price setter, `Portfolio.update_value` and the walk of `update_parent_values`, as functions over the price array and an event log.
- `WalkProperties`: what the walk guarantees for every graph and every starting stock.
- `PortfolioTool`: the class `AssetGraph`. Its fields are the adjacency lists, the node maps, `all_refidx`, `all_prices` (an array) and the log. Each method updates them in place and is proved against the functions above.
- `SizeTree` (`test.py` lines 3-45) and `SizeDag` (`test.py` lines 60-102): classes over an arena of objects. The recursive `update_size` methods are proved against functions that say how far a size change travels.

Representation choices:

- Each Python dict is kept as its key order plus a map, because the program relies on insertion order.
- NaN is `None` in an `Option<real>` slot. A node's reference to its graph is replaced by the graph itself, and a node is a value in the graph's maps.
- Each `print` in the price setter becomes an entry `Event(name, value)` appended to the log.
- In `test.py` an object reference is an index into the arena.

`add_component` asserts `(parent is None) ^ (qty is not None)`. The model follows that code: the call fails exactly when one of `parent` and `qty` is given without the other. Giving both, or neither, passes.

## Model

| member | source | states |
|---|---|---|
| Text.Split | data_io.py:20 | `split` always yields at least one piece |
| Text.SplitJoin | data_io.py:20 | no piece contains the separator, and joining the pieces with it gives back the line |
| Text.Upper | data_io.py:10-11 | ASCII upper-casing: lower-case ASCII letters become their capitals, every other character is kept, the length is kept, and no lower-case ASCII letter is left |
| Text.SplitWithoutSeparator | data_io.py:20-21 | a line without a comma is one field |
| Text.SplitAfterPiece | data_io.py:20 | splitting a separator-free piece, the separator and a rest gives the piece followed by the pieces of the rest |
| Text.JoinSplit | data_io.py:20 | splitting the join of separator-free pieces gives back exactly those pieces |
| Text.StripEmptyIffBlank | data_io.py:16-17 | a stripped line is empty exactly when the line is all whitespace |
| Text.StripHasNoOuterSpace | data_io.py:16 | a stripped line neither starts nor ends with whitespace |
| Text.TrimStartKeepsSuffix | data_io.py:16 | stripping the front keeps the longest suffix that does not start with whitespace |
| Text.TrimEndKeepsPrefix | data_io.py:16 | stripping the back keeps the longest prefix that does not end with whitespace |
| DataIo.HeaderCheck | data_io.py:9-12 | the header passes exactly when it has two fields whose stripped upper-cased values are NAME and SHARES; otherwise the error is IndexError exactly when the header is a single field equal to NAME (the check of the first field passes and the second is missing), and ValueError in every other case |
| DataIo.ReadCsvPrices | data_io.py:34-39 | `read_csv_prices` does the same header check and nothing more; an empty file has no header line |
| DataIo.Classify | data_io.py:16-28 | a line with more than two fields is reported with its stripped text |
| DataIo.ReadPortfoliosWeights | data_io.py:1-31 | an empty file or a bad header yields nothing and raises; otherwise the blocks are those of the loop over the remaining lines, and every yielded block is well formed; at an error, nothing of the block in progress has been yielded |
| DataIo.GroupBlocks | data_io.py:13-31 | the loop stops at the first line with more than two fields, exactly then raises, and names that line. The yielded blocks laid end to end are a prefix of the accepted entries; they are all of them when nothing is raised; when something is raised, exactly the block being accumulated is missing: it is a single non-empty block that starts with a name unless it is the first |
| DataIo.BlankStep | data_io.py:16-18 | a line that is blank after stripping leaves the reader's state unchanged |
| DataIo.StartStep | data_io.py:21-24 | a name line after a block yields that block and starts `[name]` |
| DataIo.FirstStartStep | data_io.py:21-24 | a name line before any entry starts the first block |
| DataIo.ItemStep | data_io.py:25-26 | a two-field line is appended to the current block as its pair |
| DataIo.StoppedAt | data_io.py:22-28 | at a line with too many fields, every block before the current one has been yielded and the error names the line |
| DataIo.ReachedEnd | data_io.py:30-31 | at end of input the last non-empty block is yielded, and then all accepted entries have been yielded in order |
| DataIo.YieldBlock | data_io.py:22-23 | yielding a block keeps every block non-empty and name-headed, and extends the concatenation by that block |
| DataIo.BlankLineContributesNothing | data_io.py:16-18 | inserting a blank line anywhere does not change the accepted entries |
| Adjacency.NoListsOk | portfolio_tool.py:86-96 | the empty buckets are well formed |
| Adjacency.AddEdge | portfolio_tool.py:123-129 | the parent and the quantity are appended to the name's lists, which are created, as the last key, for a new name; the lists stay parallel; other names are untouched |
| Adjacency.AddContainer | portfolio_tool.py:130-133 | a new container name gets empty lists as the last key; an existing one keeps its lists, so the call is idempotent and never clears entries |
| Adjacency.AddComponent | portfolio_tool.py:119-133 | fails (AssertionError) exactly when one of parent and quantity is given without the other; with a parent it changes only the stock bucket, without one only the portfolio bucket; the buckets stay well formed |
| Adjacency.DeclareRecord | portfolio_tool.py:102-117 | one record: empty raises IndexError; more than two fields with a non-empty second raise AttributeError; a pair before any container raises ValueError; a one-field record, or one whose second field is empty, becomes the current container; the NAME/SHARES row is skipped; a pair whose quantity `float()` rejects raises ValueError naming the quantity; an accepted pair is `AddEdge` of the current container and the parsed quantity into the stock bucket; a raising record changes nothing |
| Adjacency.Declare | portfolio_tool.py:98-117 | the declaration loop keeps the buckets well formed |
| Adjacency.DeclareRecordKeepsOwnersDeclared | portfolio_tool.py:103-113 | after one record, every recorded parent is a declared container and the current container is declared |
| Adjacency.DeclareKeepsOwnersDeclared | portfolio_tool.py:101-117 | every stock declared by the loop is owned by containers named in earlier records |
| Adjacency.Without | portfolio_tool.py:146 | popping keys keeps exactly the keys not popped, without repeats |
| Adjacency.ToMove | portfolio_tool.py:144 | `to_move` is exactly the stock keys that are also portfolio keys, without repeats |
| Adjacency.MoveKeepsOk | portfolio_tool.py:145-149 | moving one name keeps both buckets well formed |
| Adjacency.MoveAllKeepsOk | portfolio_tool.py:144-149 | the whole loop keeps both buckets well formed |
| Adjacency.MoveAllStocks | portfolio_tool.py:145-147 | moved names leave the stock bucket, whose order and lists are otherwise kept |
| Adjacency.MoveAllPortfolios | portfolio_tool.py:145-149 | each moved name's portfolio lists become its old portfolio lists followed by its old stock lists; key order and other names are kept |
| Adjacency.MoveAllKeys | portfolio_tool.py:144-149 | after the loop the stock keys are the old ones minus the moved names; the portfolio keys are unchanged |
| Adjacency.FixStructure | portfolio_tool.py:141-149 | `fix_structure` keeps the buckets well formed |
| Adjacency.FixStructureStocks | portfolio_tool.py:141-149 | the stock bucket keeps exactly the names that were not portfolio keys, with their lists, in their old order with the moved names popped |
| Adjacency.FixStructurePortfolios | portfolio_tool.py:141-149 | portfolio keys and order are kept; a name that was in both buckets gets its portfolio lists followed by its stock lists |
| Adjacency.FixStructureSeparates | portfolio_tool.py:141-149 | afterwards the two buckets share no key and nothing is left to move |
| Adjacency.FixStructureIdempotent | portfolio_tool.py:141-154 | a second `fix_structure` (as `init_components` does) changes nothing |
| Adjacency.NothingToMove | portfolio_tool.py:144 | with disjoint buckets `to_move` is empty |
| Adjacency.FixStructureKeepsOwners | portfolio_tool.py:141-149 | if every declared parent was a declared container, every parent in the merged view is a portfolio key after the move |
| Adjacency.MergedParents | portfolio_tool.py:135-139 | the merged view holds exactly the names of either bucket, and a name in both is looked up in the portfolio bucket |
| Adjacency.MergedWeights | portfolio_tool.py:135-139 | the merged weight view holds exactly the names of either bucket, and a name in both is looked up in the portfolio bucket |
| Adjacency.MergedListsParallel | portfolio_tool.py:42-43 | in well-formed buckets the merged parent and weight views have the same names and parallel lists of equal length, so `zip` drops no parent |
| Adjacency.MergedKeysSpec | portfolio_tool.py:135-139 | the merged key order lists every name of either bucket exactly once |
| Adjacency.EnumerateSpec | portfolio_tool.py:163 | on distinct keys `all_refidx` maps each name to its position: a bijection onto 0..n-1 |
| Linking.NewStocks | portfolio_tool.py:166-167 | one stock node per stock key, carrying that name's index |
| Linking.NewPortfolios | portfolio_tool.py:168-171 | one empty portfolio node per portfolio key, carrying that name's index |
| Linking.ChildEdges | portfolio_tool.py:175 | `zip` stops at the shorter list |
| Linking.ChildEdgesAt | portfolio_tool.py:175 | `zip` pairs the i-th owner with the i-th weight |
| Linking.LinkKeepsIndices | portfolio_tool.py:173-181 | linking keeps the portfolio keys and every portfolio's name and index, whether or not it raises |
| Linking.LinkAppend | portfolio_tool.py:173-181 | the portfolio loop starts where the stock loop ended, unless the stock loop raised |
| Linking.LinkMissing | portfolio_tool.py:176-180 | KeyError is raised exactly when some edge's owner is not a portfolio, and it names the first such owner |
| Linking.LinkContents | portfolio_tool.py:173-181 | a successful link appends to every portfolio one asset index and one weight per edge to it, in edge order, duplicates included |
| Linking.ChildrenAppend | portfolio_tool.py:174-181 | a portfolio's assets from the stock loop come before those from the portfolio loop |
| Linking.ChildrenQuantitiesLength | portfolio_tool.py:176-181 | `assets` and `weights` grow in step |
| Linking.BucketEdgesCover | portfolio_tool.py:174-179 | with parallel lists every declared parent of a key owns one of its edges |
| Linking.BucketEdgesOwners | portfolio_tool.py:174-179 | every edge's owner is one of the declared parents |
| Linking.OwnersOfAppend | portfolio_tool.py:173-181 | the owners of both loops' edges are the owners of each loop's edges |
| Building.RefidxCovers | portfolio_tool.py:160-163 | every bucket key has an index, and the indexed names are exactly the merged names, below the array length |
| Building.EdgesCover | portfolio_tool.py:173-181 | every parent in the merged view owns some edge `_link_nodes` visits |
| Building.EdgesOwners | portfolio_tool.py:173-181 | with disjoint buckets every edge's owner is a merged-view parent |
| Building.BuiltLinksIff | portfolio_tool.py:151-181 | after `fix_structure`, linking raises no KeyError exactly when every parent in the merged view is a portfolio |
| Building.DeclaredGraphsLink | portfolio_tool.py:98-158 | lists declared by records whose parents are declared containers always link after `fix_structure` |
| Building.BuiltNodesOk | portfolio_tool.py:165-181 | the linked portfolios are exactly the portfolio keys, keyed by name, with parallel `assets`/`weights` whose indices fit the price array |
| Building.BuiltOwnersArePortfolios | portfolio_tool.py:173-181 | after a successful link every merged-view parent is a portfolio |
| Building.BuiltTopologyOk | portfolio_tool.py:151-181 | a successful `init_components` leaves a graph over which the valuation walk is defined |
| Building.BuiltStocksOk | portfolio_tool.py:165-167 | the stock nodes are exactly the stock keys, keyed by name, each with an index into the array and a parent list |
| Valuation.SetPrice | portfolio_tool.py:14-23 | the slot is written and one event logged exactly when the value differs (NaN differs from everything); no other slot changes |
| Valuation.SetPriceTwice | portfolio_tool.py:19-23 | writing the same known price again changes nothing and logs nothing |
| Valuation.AssetPrices | portfolio_tool.py:65-67 | one price per asset: the i-th entry is the price at index `assets[i]` of the array |
| Valuation.UpdateValue | portfolio_tool.py:69-78 | returns False, changing nothing, exactly when the incremental case does not apply and some child price is unknown. With known price and difference it adds the difference; otherwise the price becomes the dot product of child prices and weights. It never writes unknown, touches no other slot, and logs only a changed price |
| Valuation.FreshSpec | portfolio_tool.py:42-46 | the inner loop appends exactly the parents not yet visited, each once, so `visited` stays free of repeats |
| Valuation.Evaluate | portfolio_tool.py:38-40 | evaluating the head leaves the queue, `visited` and the array size alone; the starting stock is not evaluated, and any other head is evaluated once, joining the priced names at most once |
| Valuation.AddedAreOwners | portfolio_tool.py:42-46 | the names a portfolio enqueues are portfolios with parent lists |
| Valuation.StepOk | portfolio_tool.py:36-46 | one iteration keeps the walk well defined |
| Valuation.StepProgress | portfolio_tool.py:36-46 | each iteration visits a new name or shortens the queue, so the walk ends even on a cyclic graph |
| Valuation.Run | portfolio_tool.py:36-46 | the walk ends with an empty queue, still well defined |
| WalkProperties.StartInv | portfolio_tool.py:32-34 | the walk's invariant holds before the first iteration |
| WalkProperties.StepKeepsShape | portfolio_tool.py:37-46 | after an iteration `visited` still starts with the stock, has no repeats, and holds the queue as its unprocessed tail; the processed names other than the stock were evaluated in visiting order |
| WalkProperties.FirstStepShape | portfolio_tool.py:37-38 | the first iteration pops the stock itself, which is not evaluated |
| WalkProperties.LaterStepShape | portfolio_tool.py:37-40 | a later iteration evaluates the next visited name |
| WalkProperties.StepKeepsReach | portfolio_tool.py:41-46 | each visited name was reached from the stock or from a priced portfolio, and a priced portfolio's parents are all visited |
| WalkProperties.StepKeepsTracked | portfolio_tool.py:38-40 | only evaluated portfolios' slots change; no known slot becomes unknown; a priced portfolio is known; the log only grows by lines of evaluated portfolios |
| WalkProperties.RunKeepsInv | portfolio_tool.py:36-46 | the whole loop keeps that invariant |
| WalkProperties.WalkEvaluatesEachOnce | portfolio_tool.py:32-46 | the starting stock is never evaluated; every other visited name is evaluated exactly once, in visiting order |
| WalkProperties.WalkVisitsOwners | portfolio_tool.py:41-46 | the visited names are exactly the stock, its parents and the parents of portfolios whose evaluation returned True, so an unpriceable portfolio enqueues none of its parents on its own account |
| WalkProperties.FinishedVisitsOwners | portfolio_tool.py:36-46 | once the queue is empty, the visited names are exactly the start and the names reached from it or from a priced portfolio |
| WalkProperties.WalkChangesOnlyEvaluated | portfolio_tool.py:36-46 | the walk writes only the slots of portfolios it evaluates, never makes a known price unknown, leaves every portfolio that returned True priced, and logs only their lines after the old ones |
| WalkProperties.RunStaysWithin | portfolio_tool.py:36-46 | a walk that starts inside a parent-closed set of names stays inside it |
| WalkProperties.WalkStaysAmongAncestors | portfolio_tool.py:28-46 | the walk visits only names in every parent-closed set that contains the stock, that is, the stock's ancestors |
| PortfolioTool.Enqueue | portfolio_tool.py:42-46 | the inner loop appends to both `visited` and the queue exactly the parents not yet visited, in order |
| PortfolioTool.AssetGraph.constructor | portfolio_tool.py:86-96 | a new graph has empty, well-formed buckets, no nodes and an empty log |
| PortfolioTool.AssetGraph.AddComponent | portfolio_tool.py:119-133 | the lists change exactly as `Adjacency.AddComponent` says, or not at all with AssertionError |
| PortfolioTool.AssetGraph.AddComponentsFrom | portfolio_tool.py:98-117 | the lists and the error are those of `Adjacency.Declare` from the empty container name |
| PortfolioTool.AssetGraph.FixStructure | portfolio_tool.py:141-149 | the lists become `Adjacency.FixStructure` of the old ones |
| PortfolioTool.AssetGraph.MoveNode | portfolio_tool.py:145-149 | one name's stock lists are popped and appended to its portfolio lists |
| PortfolioTool.AssetGraph.InitPrices | portfolio_tool.py:160-163 | a new array with one unknown slot per merged name; `all_refidx` enumerates the merged names |
| PortfolioTool.AssetGraph.InitNodes | portfolio_tool.py:165-171 | the stock and portfolio node maps are those of `NewStocks` and `NewPortfolios` |
| PortfolioTool.AssetGraph.InitStockNodes | portfolio_tool.py:166-167 | the stock nodes are `NewStocks` of the stock bucket |
| PortfolioTool.AssetGraph.InitPortfolioNodes | portfolio_tool.py:168-171 | the portfolio nodes are `NewPortfolios` of the portfolio bucket |
| PortfolioTool.AssetGraph.LinkChild | portfolio_tool.py:175-177 | the inner loop links one child to each owner in `zip` order, stopping at the first owner that is not a portfolio |
| PortfolioTool.AssetGraph.LinkStocks | portfolio_tool.py:174-177 | the stock loop is `Link` over the stock edges |
| PortfolioTool.AssetGraph.LinkPortfolios | portfolio_tool.py:178-181 | the portfolio loop is `Link` over the portfolio edges |
| PortfolioTool.AssetGraph.LinkNodes | portfolio_tool.py:173-181 | the portfolios become `Link` over all edges, stocks first; the result is KeyError on the owner it names, if any |
| PortfolioTool.AssetGraph.InitComponents | portfolio_tool.py:151-158 | the lists are `fix_structure`d; the array has one unknown slot per merged name; the nodes are those built and linked from the lists; KeyError exactly when linking finds a parent that is not a portfolio; never for lists declared by `add_components_from`; success leaves a graph ready for valuation |
| PortfolioTool.AssetGraph.Build | portfolio_tool.py:155-158 | the prices, the indices and the nodes of `init_components` after `fix_structure` |
| PortfolioTool.AssetGraph.BuildNodes | portfolio_tool.py:157-158 | the nodes of `_init_nodes` followed by `_link_nodes` |
| PortfolioTool.AssetGraph.BuiltReady | portfolio_tool.py:151-158 | nodes built and linked without error form a graph ready for valuation |
| PortfolioTool.AssetGraph.WritePrice | portfolio_tool.py:19-23 | the array and the log change as `SetPrice` says |
| PortfolioTool.AssetGraph.PortfolioUpdateValue | portfolio_tool.py:69-78 | the result, the array and the log are those of `UpdateValue` on the node |
| PortfolioTool.AssetGraph.UpdateParentValues | portfolio_tool.py:28-46 | the array and the log end as the walk `Run` from the stock says, whatever the value difference; every parent of the merged view is visited, which is what `zip` with the parallel weight lists gives in well-formed buckets |
| PortfolioTool.AssetGraph.Drain | portfolio_tool.py:36-46 | the `while queue` loop ends in the walk's final state |
| PortfolioTool.AssetGraph.VisitNext | portfolio_tool.py:37-46 | one iteration is one `Step` of the walk, and it makes progress |
| PortfolioTool.AssetGraph.StockUpdateValue | portfolio_tool.py:50-55 | the stock's slot is set through the setter, even when the value is unchanged, and the walk then runs from the stock over well-formed buckets |
| SizeTree.LineageUnique | test.py:19-45 | the parent links determine the chain of ancestors |
| SizeTree.LineageDistinct | test.py:41-45 | no object occurs twice in a chain of ancestors, so a change reaches each ancestor once |
| SizeTree.Tree.constructor | test.py:3-45 | an empty arena |
| SizeTree.Tree.GetSize | test.py:16-39 | `get_size`: a file's `size` (lines 16-17) and a folder's running `_size` (lines 38-39) |
| SizeTree.Tree.NewFile | test.py:11-17 | a new file whose size is the given size |
| SizeTree.Tree.NewFolder | test.py:27-39 | a new folder with no children, whose size starts at 0 |
| SizeTree.Tree.AddChild | test.py:33-36 | the component's parent becomes the folder, which lists it last and grows by its size; the folder's own ancestors do not change |
| SizeTree.Tree.FolderUpdateSize | test.py:41-45 | the folder and each of its ancestors grow by the difference, and nothing else changes |
| SizeTree.Tree.FileUpdateSize | test.py:19-25 | the file's size becomes the new size and every folder above it gains exactly the new size minus the old one; nothing else changes |
| SizeDag.AddedParent | test.py:65-67 | the parent is then listed, the list gains nothing else, an existing parent leaves it unchanged, and no repeat is ever created |
| SizeDag.RemoveFirst | test.py:71 | `list.remove` removes one occurrence |
| SizeDag.RemoveFirstDistinct | test.py:69-71 | on a list without repeats, `remove` removes the value and only it |
| SizeDag.RemovedParent | test.py:69-71 | an absent parent changes nothing; a present one is removed once; on a list without repeats nothing else goes |
| SizeDag.UpStart | test.py:98-102 | a change sent up from an object grows that object and is then sent up from each of its parents |
| SizeDag.UpViaStep | test.py:101-102 | sending the change up from the parents one after the other is sending it up from all of them |
| SizeDag.PathsSelf | test.py:78-84 | exactly one upward path, the empty one, leads from an object to itself |
| SizeDag.PathsNoDescent | test.py:98-102 | no upward path leads to an object that does not rank higher |
| SizeDag.PathsLastEdge | test.py:92-102 | counting the upward paths to a folder by their last edge: they are the paths to its children |
| SizeDag.ChildSumUp | test.py:98-102 | the children's total size grows by the change once per upward path to one of them |
| SizeDag.UpKeepsBalance | test.py:78-102 | in a graph whose links are in step, a folder whose size is the total of its children's sizes keeps that equality after a change travels up from any other object |
| SizeDag.AdoptsKeepsLinked | test.py:92-96 | adopting a new child keeps every folder listing exactly the objects that list it as a parent |
| SizeDag.Dag.constructor | test.py:60-102 | an empty arena |
| SizeDag.Dag.NewFile | test.py:73-76 | a new file with no parents keeps the links in step |
| SizeDag.Dag.NewFolder | test.py:86-90 | a new folder with no parents, no children and size 0 keeps the links in step |
| SizeDag.Dag.AddParent | test.py:65-67 | the object's parents become `AddedParent` of the old ones; nothing else changes |
| SizeDag.Dag.RemoveParent | test.py:69-71 | the object's parents become `RemovedParent` of the old ones; nothing else changes |
| SizeDag.Dag.AddChild | test.py:92-96 | a child already listed leaves everything unchanged, so adding a child twice is adding it once; a new child gets the folder as a parent, is listed last and adds its size to the folder's; the links stay in step |
| SizeDag.Dag.FolderUpdateSize | test.py:98-102 | every object grows by the difference once per upward path from the folder to it |
| SizeDag.Dag.FileUpdateSize | test.py:78-84 | the file's size becomes the new size, and every object above it grows by the difference once per upward path from the file |

## Left out

- File handling (`open`, `next(file)`, generator suspension and `StopIteration`): a file is a sequence of lines, and a reader returns the blocks it yields plus the exception it stops with.
- `write_csv_prices` is an empty stub and has no model.
- `construct_run_valuations.py` is a driver script with no logic of its own; it is not part of this model.
- numpy and floating point: prices are exact `real`s, NaN is `None`, `numpy.dot` is an exact sum of products, and `float(quantity)` is a parameter that may fail.
- The weak `graph` proxies of the nodes: every node method is a method of the graph that takes the node's name.
- The formatting of printed lines, including the `value if value` test in `print_value`: each line is an `Event` of the name and the price. The `print` calls of `test.py` are not modelled.
- The multiprocessing remark, the commented-out incremental update and the `incomplete_stocks` set are not code, and are not modelled.
- The walk's queue carries names only: the cumulative weight beside each name is never read.
- Text.Upper: maps the ASCII letters only. Python's `str.upper` also maps other letters, some onto ASCII (U+017F, long s, becomes S), so a header such as `NAME,ſHARES` passes in the program and fails in the model. Unicode case mapping is not modelled.
- PortfolioTool.AssetGraph.InitNodes: builds fresh node maps. The program inserts into the existing dicts, and the two differ only when `init_components` runs twice with declarations added in between.
- PortfolioTool.AssetGraph.UpdateParentValues: takes the graph as a ghost `Topology` and requires it to be well formed (every node fits the price array, every parent is a portfolio). Without that, the program raises KeyError or IndexError part way through a walk, which is not modelled. It also requires the object's invariant, under which the parent and weight lists are parallel; with lists of unequal length `zip` would silently drop the extra parents, which is not modelled.
- PortfolioTool.AssetGraph.StockUpdateValue: requires the object's invariant, and the stock's node to be keyed by its name, to fit the price array and to have a parent list, as after a successful `init_components`.
- SizeTree.Tree.FolderUpdateSize: takes a ghost chain of ancestors, whose existence says that following parents ends; on a cycle the program recurses without end. Every ancestor must be a folder: a file used as a parent would have its size overwritten by the difference, which is not modelled.
- SizeTree.Tree.FileUpdateSize: the same ghost chain and folder-ancestor requirement as `FolderUpdateSize`.
- SizeTree.Tree.GetSize: the base `Component.get_size`, which returns `None`, is not modelled. Every object is a file or a folder.
- Sizes in `test.py` are integers (`int`) in both modules. The program accepts any number, floats included; a float size, and its rounding, are not modelled.
- SizeDag.Dag.FolderUpdateSize: takes the ghost parent lists and a ghost rank that every parent ranks below (no cycle); on a cycle the program recurses without end. Every parent must be a folder: `add_parent` called directly with a file would make `update_size` overwrite that file's size, which is not modelled.
- SizeDag.Dag.FileUpdateSize: the same ghost witnesses and folder-parent requirement as `FolderUpdateSize`.
- SizeDag.UpKeepsBalance: the equality of a folder's size with its children's total is preserved only for graphs whose links are in step; `add_parent` and `remove_parent` called directly can break that, and nothing is claimed then.
