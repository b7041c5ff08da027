/**
 * The portfolio-definition reader of `data_io.py`: a header line `NAME,SHARES`
 * followed by blocks, each a portfolio name on a line of its own and then one
 * `ticker,quantity` line per component. The file is given as its sequence of
 * lines; the generator's lazily yielded blocks become the sequence of blocks
 * yielded before the reader stopped, paired with the error it stopped on.
 */
module DataIo {
  import opened Wrappers
  import opened Text

  /** Why a reader stopped early (the Python exception it raises). */
  datatype ReadError =
    | NoHeader                  // `next(file)` on an empty file
    | HeaderIndexError          // the header holds a single field
    | HeaderValueError          // the header is not `NAME,SHARES`
    | LineValueError(line: string)  // a stripped line with three or more fields

  /** One element of a yielded block: the portfolio name, or a `[ticker, quantity]` pair. */
  datatype Entry = Name(name: string) | Pair(ticker: string, quantity: string)

  /** The header check both readers perform on the first line of the file. */
  function HeaderCheck(line: string): (r: Option<ReadError>)
    ensures r == None <==>
      var h := Split(Strip(line), ',');
      |h| >= 2 && Upper(Strip(h[0])) == "NAME" && Upper(Strip(h[1])) == "SHARES"
    ensures r != None ==> r == Some(HeaderIndexError) || r == Some(HeaderValueError)
    ensures r == Some(HeaderIndexError) <==>
      var h := Split(Strip(line), ',');
      |h| == 1 && Upper(Strip(h[0])) == "NAME"
  {
    var header := Split(Strip(line), ',');
    if Upper(Strip(header[0])) != "NAME" then Some(HeaderValueError)
    else if |header| < 2 then Some(HeaderIndexError)
    else if Upper(Strip(header[1])) != "SHARES" then Some(HeaderValueError)
    else None
  }

  /** `read_csv_prices` performs the header check and nothing else. */
  function ReadCsvPrices(lines: seq<string>): (r: Option<ReadError>)
    ensures lines == [] ==> r == Some(NoHeader)
    ensures lines != [] ==> r == HeaderCheck(lines[0])
  {
    if lines == [] then Some(NoHeader) else HeaderCheck(lines[0])
  }

  /** How the loop body treats one line of the file after the header. */
  datatype LineKind = Blank | Start(name: string) | Item(ticker: string, quantity: string) | Overlong(line: string)

  function Classify(raw: string): (k: LineKind)
    ensures k.Overlong? ==> k.line == Strip(raw)
  {
    var line := Strip(raw);
    if line == "" then Blank
    else
      var items := Split(line, ',');
      if |items| == 1 || |items[1]| == 0 then Start(items[0])
      else if |items| == 2 then Item(items[0], items[1])
      else Overlong(line)
  }

  /** The entry a line contributes to the blocks (the reference the reader is checked against). */
  function EntryOf(k: LineKind): seq<Entry>
  {
    match k
    case Blank => []
    case Start(n) => [Name(n)]
    case Item(t, q) => [Pair(t, q)]
    case Overlong(_) => []
  }

  /** The classification of every line, in file order. */
  function Kinds(lines: seq<string>): (ks: seq<LineKind>)
    ensures |ks| == |lines|
  {
    if lines == [] then [] else [Classify(lines[0])] + Kinds(lines[1..])
  }

  lemma {:induction false} KindsAt(lines: seq<string>, i: nat)
    requires i < |lines|
    ensures Kinds(lines)[i] == Classify(lines[i])
  {
    if i > 0 {
      KindsAt(lines[1..], i - 1);
    }
  }

  lemma {:induction false} KindsAppend(a: seq<string>, b: seq<string>)
    ensures Kinds(a + b) == Kinds(a) + Kinds(b)
  {
    if a == [] {
      assert a + b == b;
    } else {
      assert (a + b)[1..] == a[1..] + b;
      KindsAppend(a[1..], b);
    }
  }

  /** The entries of the accepted lines, in file order: every line up to the first
      one with too many fields. */
  function Accepted(ks: seq<LineKind>): seq<Entry>
  {
    if ks == [] then []
    else if ks[0].Overlong? then []
    else EntryOf(ks[0]) + Accepted(ks[1..])
  }

  /** The position of the first line with too many fields, or the number of lines. */
  function FirstOverlong(ks: seq<LineKind>): (k: nat)
    ensures k <= |ks|
  {
    if ks == [] then 0
    else if ks[0].Overlong? then 0
    else 1 + FirstOverlong(ks[1..])
  }

  /** All blocks laid end to end. */
  function Flatten(blocks: seq<seq<Entry>>): seq<Entry>
  {
    if blocks == [] then [] else Flatten(blocks[..|blocks| - 1]) + blocks[|blocks| - 1]
  }

  /** A block as the reader accumulates it: anything after its first entry is a pair. */
  predicate OneBlock(b: seq<Entry>)
  {
    forall j :: 1 <= j < |b| ==> b[j].Pair?
  }

  /** What every yielded sequence of blocks looks like: each block is non-empty, holds
      pairs after its first entry, and every block but the first starts with a name. */
  predicate WellFormed(blocks: seq<seq<Entry>>)
  {
    forall i :: 0 <= i < |blocks| ==>
      blocks[i] != [] && OneBlock(blocks[i]) && (i > 0 ==> blocks[i][0].Name?)
  }

  /** `read_csv_portfolios_weights`, over the lines of the file. */
  method ReadPortfoliosWeights(lines: seq<string>) returns (blocks: seq<seq<Entry>>, err: Option<ReadError>)
    ensures lines == [] ==> blocks == [] && err == Some(NoHeader)
    ensures lines != [] && HeaderCheck(lines[0]) != None ==>
      blocks == [] && err == HeaderCheck(lines[0])
    ensures lines != [] && HeaderCheck(lines[0]) == None ==> GroupedFrom(lines[1..], blocks, err)
    ensures WellFormed(blocks)
  {
    if lines == [] {
      return [], Some(NoHeader);
    }
    var headerError := HeaderCheck(lines[0]);
    if headerError != None {
      return [], headerError;
    }
    blocks, err := GroupBlocks(lines[1..]);
  }

  /** What the block-grouping loop yields from the lines after the header: the accepted
      entries are all yielded when no line has too many fields; otherwise the reader
      stops at the first such line, having yielded every block before the one it was
      accumulating and nothing of that one: what is left over is a single block, not
      empty when anything was accepted, and it starts with a name unless it is the
      first block. */
  predicate GroupedFrom(body: seq<string>, blocks: seq<seq<Entry>>, err: Option<ReadError>)
  {
    var ks := Kinds(body);
    var k := FirstOverlong(ks);
    && (err == None <==> k == |body|)
    && (k < |body| ==> err == Some(LineValueError(Strip(body[k]))))
    && (err == None ==> Flatten(blocks) == Accepted(ks))
    && Flatten(blocks) <= Accepted(ks)
    && OneBlock(Accepted(ks)[|Flatten(blocks)|..])
    && (k < |body| && Accepted(ks) != [] ==>
          |Flatten(blocks)| < |Accepted(ks)| && (blocks != [] ==> Accepted(ks)[|Flatten(blocks)|].Name?))
  }

  /** The state of the reading loop before line `i`: the blocks yielded so far and the
      block being accumulated, followed by what the remaining lines contribute, are the
      accepted entries; every line so far was accepted. */
  ghost predicate Reading(ks: seq<LineKind>, i: nat, blocks: seq<seq<Entry>>, block: seq<Entry>)
  {
    && i <= |ks|
    && Flatten(blocks) + block + Accepted(ks[i..]) == Accepted(ks)
    && FirstOverlong(ks[i..]) + i == FirstOverlong(ks)
    && WellFormed(blocks) && OneBlock(block)
    && (blocks != [] ==> block != [] && block[0].Name?)
  }

  /** The `for line in file` loop of `read_csv_portfolios_weights`. */
  method GroupBlocks(body: seq<string>) returns (blocks: seq<seq<Entry>>, err: Option<ReadError>)
    ensures WellFormed(blocks)
    ensures GroupedFrom(body, blocks, err)
  {
    ghost var ks := Kinds(body);
    blocks := [];
    var block: seq<Entry> := [];
    for i := 0 to |body|
      invariant Reading(ks, i, blocks, block)
    {
      var kind := Classify(body[i]);
      KindsAt(body, i);
      match kind
      case Blank =>
        BlankStep(ks, i, blocks, block);
      case Start(name) =>
        if block != [] {
          StartStep(ks, i, blocks, block);
          blocks := blocks + [block];
        } else {
          FirstStartStep(ks, i, block);
        }
        block := [Name(name)];
      case Item(ticker, quantity) =>
        ItemStep(ks, i, blocks, block);
        block := block + [Pair(ticker, quantity)];
      case Overlong(line) =>
        StoppedAt(body, ks, i, blocks, block);
        return blocks, Some(LineValueError(line));
    }
    ReachedEnd(body, ks, blocks, block);
    if block != [] {
      blocks := blocks + [block];
    }
    err := None;
  }

  /** A line that is blank after stripping leaves the loop state as it is. */
  lemma BlankStep(ks: seq<LineKind>, i: nat, blocks: seq<seq<Entry>>, block: seq<Entry>)
    requires Reading(ks, i, blocks, block) && i < |ks| && ks[i].Blank?
    ensures Reading(ks, i + 1, blocks, block)
  {
    Advance(ks, i);
  }

  /** A `ticker,quantity` line joins the block being accumulated. */
  lemma ItemStep(ks: seq<LineKind>, i: nat, blocks: seq<seq<Entry>>, block: seq<Entry>)
    requires Reading(ks, i, blocks, block) && i < |ks| && ks[i].Item?
    ensures Reading(ks, i + 1, blocks, block + [Pair(ks[i].ticker, ks[i].quantity)])
  {
    Advance(ks, i);
    var p := Pair(ks[i].ticker, ks[i].quantity);
    assert Flatten(blocks) + (block + [p]) + Accepted(ks[i + 1..])
        == Flatten(blocks) + block + ([p] + Accepted(ks[i + 1..]));
  }

  /** A name line that follows a block yields that block and starts a new one. */
  lemma StartStep(ks: seq<LineKind>, i: nat, blocks: seq<seq<Entry>>, block: seq<Entry>)
    requires Reading(ks, i, blocks, block) && i < |ks| && ks[i].Start? && block != []
    ensures Reading(ks, i + 1, blocks + [block], [Name(ks[i].name)])
  {
    Advance(ks, i);
    YieldBlock(blocks, block);
    var n := [Name(ks[i].name)];
    assert Flatten(blocks + [block]) + n + Accepted(ks[i + 1..])
        == Flatten(blocks) + block + (n + Accepted(ks[i + 1..]));
  }

  /** A name line before any entry starts the first block. */
  lemma FirstStartStep(ks: seq<LineKind>, i: nat, block: seq<Entry>)
    requires Reading(ks, i, [], block) && i < |ks| && ks[i].Start? && block == []
    ensures Reading(ks, i + 1, [], [Name(ks[i].name)])
  {
    Advance(ks, i);
  }

  /** The reader stops at line `i`, the first with too many fields. */
  lemma StoppedAt(body: seq<string>, ks: seq<LineKind>, i: nat, blocks: seq<seq<Entry>>, block: seq<Entry>)
    requires ks == Kinds(body) && i < |body| && ks[i] == Classify(body[i]) && ks[i].Overlong?
    requires Reading(ks, i, blocks, block)
    ensures WellFormed(blocks)
    ensures GroupedFrom(body, blocks, Some(LineValueError(ks[i].line)))
  {
    Advance(ks, i);
    assert Accepted(ks) == Flatten(blocks) + block;
    assert Accepted(ks)[|Flatten(blocks)|..] == block;
  }

  /** The reader reaches the end of the file and yields the last block, if any, having
      then yielded every accepted entry. */
  lemma ReachedEnd(body: seq<string>, ks: seq<LineKind>, blocks: seq<seq<Entry>>, block: seq<Entry>)
    requires ks == Kinds(body) && Reading(ks, |body|, blocks, block)
    ensures var yielded := if block != [] then blocks + [block] else blocks;
      WellFormed(yielded) && GroupedFrom(body, yielded, None)
  {
    assert ks[|body|..] == [];
    var yielded := if block != [] then blocks + [block] else blocks;
    if block != [] {
      YieldBlock(blocks, block);
    }
    assert FirstOverlong(ks) == |body|;
    assert Flatten(yielded) == Accepted(ks);
    AllYielded(body, yielded);
  }

  /** With no line having too many fields and every accepted entry yielded, the
      grouping is complete. */
  lemma AllYielded(body: seq<string>, yielded: seq<seq<Entry>>)
    requires FirstOverlong(Kinds(body)) == |body|
    requires Flatten(yielded) == Accepted(Kinds(body))
    ensures GroupedFrom(body, yielded, None)
  {
    assert Accepted(Kinds(body))[|Flatten(yielded)|..] == [];
  }

  /** One step of the reading loop, in terms of the accepted entries. */
  lemma Advance(ks: seq<LineKind>, i: nat)
    requires i < |ks|
    ensures ks[i].Overlong? ==> Accepted(ks[i..]) == [] && FirstOverlong(ks[i..]) == 0
    ensures !ks[i].Overlong? ==>
      && Accepted(ks[i..]) == EntryOf(ks[i]) + Accepted(ks[i + 1..])
      && FirstOverlong(ks[i..]) == 1 + FirstOverlong(ks[i + 1..])
  {
    assert ks[i..][1..] == ks[i + 1..];
  }

  /** Yielding the accumulated block keeps the blocks well formed and extends their
      flattening by that block. */
  lemma YieldBlock(blocks: seq<seq<Entry>>, block: seq<Entry>)
    requires WellFormed(blocks) && OneBlock(block) && block != []
    requires blocks != [] ==> block[0].Name?
    ensures WellFormed(blocks + [block])
    ensures Flatten(blocks + [block]) == Flatten(blocks) + block
  {
    assert (blocks + [block])[..|blocks|] == blocks;
  }

  /** Accepting lines after an all-accepted prefix. */
  lemma {:induction false} AcceptedAppend(a: seq<LineKind>, b: seq<LineKind>)
    requires FirstOverlong(a) == |a|
    ensures Accepted(a + b) == Accepted(a) + Accepted(b)
  {
    if a != [] {
      assert (a + b)[1..] == a[1..] + b;
      AcceptedAppend(a[1..], b);
    } else {
      assert a + b == b;
    }
  }

  /** A line that is empty after stripping contributes no entry, wherever it stands. */
  lemma BlankLineContributesNothing(a: seq<string>, blank: string, b: seq<string>)
    requires Strip(blank) == ""
    ensures Accepted(Kinds(a + [blank] + b)) == Accepted(Kinds(a + b))
  {
    KindsAppend(a + [blank], b);
    KindsAppend(a, [blank]);
    KindsAppend(a, b);
    assert Kinds([blank]) == [Blank];
    BlankKindContributesNothing(Kinds(a), Kinds(b));
  }

  lemma {:induction false} BlankKindContributesNothing(a: seq<LineKind>, b: seq<LineKind>)
    ensures Accepted(a + [Blank] + b) == Accepted(a + b)
  {
    if a == [] {
      assert a + [Blank] + b == [Blank] + b;
      assert ([Blank] + b)[1..] == b;
      assert a + b == b;
    } else {
      assert (a + [Blank] + b)[0] == a[0] && (a + b)[0] == a[0];
      assert (a + [Blank] + b)[1..] == a[1..] + [Blank] + b;
      assert (a + b)[1..] == a[1..] + b;
      BlankKindContributesNothing(a[1..], b);
    }
  }
}
