// Scanning the chain for orders and matches.
//
// The indexer is a sequence of cells and a prefix query on their locks; its pages
// are any split of the query's answer. The address lookup is a parameter.
module Reader {
  import opened Machine
  import opened Protocol
  import opened Cells
  import opened State
  import opened Types

  // ---------------------------------------------------------------------------
  // Cell parsers
  // ---------------------------------------------------------------------------

  function RealRentCapacity(cell: Cell): Option<u64> {
    if cell.Occupied() < U64_SPAN then Some(cell.Unoccupied()) else None
  }

  /** The off-chain pool in shannons: the parser fails only when 10^8 times the bytes do
      not fit 64 bits, and a cell short of its bytes has no pool. */
  lemma RentCapacityInNumbers(cell: Cell)
    ensures var args := |cell.lock.args| + (if cell.typeScript.Some? then 33 + |cell.typeScript.value.args| else 0);
            var occupied := 100_000_000 * (41 + args + |cell.data|);
            RealRentCapacity(cell) ==
            if occupied >= U64_SPAN then None
            else Some(if cell.capacity >= occupied then cell.capacity - occupied else 0)
  {
    CapacityInNumbers(cell);
  }

  function TokenOf(cell: Cell, amount: u128): Option<Xudt> {
    if cell.typeScript.Some? then Some(Xudt(amount, cell.typeScript.value)) else None
  }

  function ParseOrderCell(live: LiveCell): Option<OrderInfo> {
    var orderArgs :- OrderArgs.FromSlice(live.cell.lock.args);
    var orderData :- OrderData.FromSlice(live.cell.data);
    var ckbCapacity :- RealRentCapacity(live.cell);
    Some(OrderInfo(orderArgs, orderData, TokenOf(live.cell, orderData.xudtAmount), ckbCapacity, live.outPoint, None))
  }

  function ParseMatchCell(live: LiveCell): Option<MatchInfo> {
    var matchArgs :- MatchArgs.FromSlice(live.cell.lock.args);
    var matchData :- MatchData.FromSlice(live.cell.data);
    var ckbCapacity :- RealRentCapacity(live.cell);
    Some(MatchInfo(matchArgs, matchData, TokenOf(live.cell, matchData.xudtAmount), ckbCapacity, live.outPoint, live.block))
  }

  /** On stored cells the off-chain order parser accepts what the contract classifies
      as an order, and both read the same args, data, pool and tokens. */
  lemma OrderParserAgrees(live: LiveCell)
    requires live.cell.Stored()
    ensures match ParseOrderCell(live)
            case Some(info) =>
              && StateOf(live.cell) == Ok(OpticrumState(Order(info.orderArgs, info.orderData), info.ckbCapacity, info.xudt))
              && info.ckbCapacity == live.cell.Unoccupied() && info.orderOutpoint == live.outPoint
            case None => StateOf(live.cell).Ok? ==> !StateOf(live.cell).value.branch.Order?
  {
  }

  lemma MatchParserAgrees(live: LiveCell)
    requires live.cell.Stored()
    ensures match ParseMatchCell(live)
            case Some(info) =>
              && StateOf(live.cell) == Ok(OpticrumState(Match(info.matchArgs, info.matchData), info.ckbCapacity, info.xudt))
              && info.ckbCapacity == live.cell.Unoccupied() && info.matchOutpoint == live.outPoint
              && info.matchCurrentBlock == live.block
            case None => StateOf(live.cell).Ok? ==> !StateOf(live.cell).value.branch.Match?
  {
  }

  // ---------------------------------------------------------------------------
  // Sequence vocabulary
  // ---------------------------------------------------------------------------

  function Flatten<T>(batches: seq<seq<T>>): seq<T> {
    if batches == [] then [] else batches[0] + Flatten(batches[1..])
  }

  /** The values `parse` finds, in order. */
  function Select<T, U>(items: seq<T>, parse: T -> Option<U>): seq<U> {
    if items == [] then []
    else (match parse(items[0]) case Some(u) => [u] case None => []) + Select(items[1..], parse)
  }

  function Filter<T>(items: seq<T>, keep: T -> bool): seq<T> {
    if items == [] then []
    else (if keep(items[0]) then [items[0]] else []) + Filter(items[1..], keep)
  }

  lemma SelectCons<T, U>(x: T, rest: seq<T>, parse: T -> Option<U>)
    ensures Select([x] + rest, parse) ==
            if parse(x).Some? then [parse(x).value] + Select(rest, parse) else Select(rest, parse)
  {
    assert ([x] + rest)[1..] == rest;
  }

  lemma {:induction false} SelectSnoc<T, U>(a: seq<T>, x: T, parse: T -> Option<U>)
    ensures Select(a + [x], parse) ==
            if parse(x).Some? then Select(a, parse) + [parse(x).value] else Select(a, parse)
  {
    if a == [] {
      SelectCons(x, [], parse);
      assert a + [x] == [x] + [];
    } else {
      var rest := a[1..];
      SelectSnoc(rest, x, parse);
      SelectCons(a[0], rest, parse);
      SelectCons(a[0], rest + [x], parse);
      assert a == [a[0]] + rest;
      assert a + [x] == [a[0]] + (rest + [x]);
      hide Select;
    }
  }

  /** One more item of a batch selected. */
  lemma SelectNext<T, U>(before: seq<T>, batch: seq<T>, i: nat, parse: T -> Option<U>)
    requires i < |batch|
    ensures Select(before + batch[..i + 1], parse) ==
            Select(before + batch[..i], parse) + (if parse(batch[i]).Some? then [parse(batch[i]).value] else [])
  {
    assert before + batch[..i + 1] == (before + batch[..i]) + [batch[i]];
    SelectSnoc(before + batch[..i], batch[i], parse);
  }

  lemma {:induction false} FlattenSnoc<T>(batches: seq<seq<T>>, batch: seq<T>)
    ensures Flatten(batches + [batch]) == Flatten(batches) + batch
  {
    if batches == [] {
      assert [batch][1..] == [] && batches + [batch] == [batch];
    } else {
      FlattenSnoc(batches[1..], batch);
      assert (batches + [batch])[1..] == batches[1..] + [batch];
    }
  }

  lemma FlattenNext<T>(batches: seq<seq<T>>, i: nat)
    requires i < |batches|
    ensures Flatten(batches[..i + 1]) == Flatten(batches[..i]) + batches[i]
  {
    assert batches[..i + 1] == batches[..i] + [batches[i]];
    FlattenSnoc(batches[..i], batches[i]);
  }

  // ---------------------------------------------------------------------------
  // Scanning
  // ---------------------------------------------------------------------------

  /** The indexer's answer: cells under the Opticrum lock whose args start with the
      prefix. */
  predicate Hit(c: LiveCell, codeHash: Bytes32, prefix: Bytes) {
    c.cell.lock.codeHash == codeHash && c.cell.lock.hashType.Type? && prefix <= c.cell.lock.args
  }

  function Query(cells: seq<LiveCell>, codeHash: Bytes32, prefix: Bytes): seq<LiveCell> {
    Filter(cells, c => Hit(c, codeHash, prefix))
  }

  function PrefixOf(fiberPubkey: Option<CompressedPubkey>): Bytes {
    if fiberPubkey.Some? then fiberPubkey.value.ToBytes() else []
  }

  method ScanCells<U>(batches: seq<seq<LiveCell>>, parse: LiveCell -> Option<U>) returns (results: seq<U>)
    ensures results == Select(Flatten(batches), parse)
  {
    results := [];
    assert batches[..0] == [] && Select(Flatten<LiveCell>([]), parse) == [];
    for i := 0 to |batches|
      invariant results == Select(Flatten(batches[..i]), parse)
    {
      var batch := batches[i];
      ghost var before := Flatten(batches[..i]);
      assert before + batch[..0] == before;
      for j := 0 to |batch|
        invariant results == Select(before + batch[..j], parse)
      {
        var value := parse(batch[j]);
        if value.Some? {
          results := results + [value.value];
        }
        SelectNext(before, batch, j, parse);
      }
      assert batch[..|batch|] == batch;
      FlattenNext(batches, i);
    }
    assert batches[..|batches|] == batches;
  }

  method ScanMatches(cells: seq<LiveCell>, codeHash: Bytes32, fiberPubkey: Option<CompressedPubkey>,
                     batches: seq<seq<LiveCell>>) returns (matches: seq<MatchInfo>)
    requires Flatten(batches) == Query(cells, codeHash, PrefixOf(fiberPubkey))
    ensures matches == Select(Query(cells, codeHash, PrefixOf(fiberPubkey)), ParseMatchCell)
  {
    matches := ScanCells(batches, ParseMatchCell);
  }

  /** Orders come back in the order found, each with the address looked up for it. */
  method ScanOrders(cells: seq<LiveCell>, codeHash: Bytes32, fiberPubkey: Option<CompressedPubkey>,
                    batches: seq<seq<LiveCell>>, fetchFiberAddress: OutPoint -> Option<string>)
    returns (orders: seq<OrderInfo>)
    requires Flatten(batches) == Query(cells, codeHash, PrefixOf(fiberPubkey))
    ensures var found := Select(Query(cells, codeHash, PrefixOf(fiberPubkey)), ParseOrderCell);
            && |orders| == |found|
            && forall i :: 0 <= i < |found| ==>
                 orders[i] == found[i].(fiberAddress := fetchFiberAddress(found[i].orderOutpoint))
  {
    var found := ScanCells(batches, ParseOrderCell);
    orders := found;
    for i := 0 to |orders|
      invariant |orders| == |found|
      invariant forall k :: 0 <= k < i ==>
                  orders[k] == found[k].(fiberAddress := fetchFiberAddress(found[k].orderOutpoint))
      invariant forall k :: i <= k < |found| ==> orders[k] == found[k]
    {
      var address := fetchFiberAddress(orders[i].orderOutpoint);
      orders := orders[i := orders[i].(fiberAddress := address)];
    }
  }

  // ---------------------------------------------------------------------------
  // Scans agree with the contract
  // ---------------------------------------------------------------------------

  /** `c` is under the Opticrum lock and the contract parses it as an order. */
  predicate ClassifiedOrder(c: LiveCell, codeHash: Bytes32) {
    && c.cell.lock.codeHash == codeHash && c.cell.lock.hashType.Type?
    && ParseBranch(c.cell.lock.args, c.cell.data).Ok? && ParseBranch(c.cell.lock.args, c.cell.data).value.Order?
  }

  predicate ClassifiedMatch(c: LiveCell, codeHash: Bytes32) {
    && c.cell.lock.codeHash == codeHash && c.cell.lock.hashType.Type?
    && ParseBranch(c.cell.lock.args, c.cell.data).Ok? && ParseBranch(c.cell.lock.args, c.cell.data).value.Match?
  }

  predicate AllStored(cells: seq<LiveCell>) {
    forall c | c in cells :: c.cell.Stored()
  }

  /** A full scan returns exactly the cells that the contract classifies, one value
      each and in chain order; no cell is in both scans. */
  lemma ScansAreClassification(cells: seq<LiveCell>, codeHash: Bytes32)
    requires AllStored(cells)
    ensures var orders := Filter(cells, c => ClassifiedOrder(c, codeHash));
            var found := Select(Query(cells, codeHash, []), ParseOrderCell);
            |found| == |orders| && forall i :: 0 <= i < |found| ==> ParseOrderCell(orders[i]) == Some(found[i])
    ensures var matches := Filter(cells, c => ClassifiedMatch(c, codeHash));
            var found := Select(Query(cells, codeHash, []), ParseMatchCell);
            |found| == |matches| && forall i :: 0 <= i < |found| ==> ParseMatchCell(matches[i]) == Some(found[i])
    ensures forall c :: !(ClassifiedOrder(c, codeHash) && ClassifiedMatch(c, codeHash))
  {
    hide ParseOrderCell, ParseMatchCell, ParseBranch;
    forall c | c in cells
      ensures ParseOrderCell(c).Some? && Hit(c, codeHash, []) <==> ClassifiedOrder(c, codeHash)
      ensures ParseMatchCell(c).Some? && Hit(c, codeHash, []) <==> ClassifiedMatch(c, codeHash)
    {
      OrderParserAgrees(c);
      MatchParserAgrees(c);
    }
    SelectWhere(cells, c => Hit(c, codeHash, []), c => ClassifiedOrder(c, codeHash), ParseOrderCell);
    SelectWhere(cells, c => Hit(c, codeHash, []), c => ClassifiedMatch(c, codeHash), ParseMatchCell);
  }

  /** Every value a scan returns was parsed from a cell of the chain under the contract's
      code hash with the prefix asked for, and every such cell that parses is returned. */
  lemma ScanSource<U>(cells: seq<LiveCell>, codeHash: Bytes32, prefix: Bytes, parse: LiveCell -> Option<U>, u: U)
    ensures u in Select(Query(cells, codeHash, prefix), parse) <==>
            exists c | c in cells ::
              && c.cell.lock.codeHash == codeHash && c.cell.lock.hashType.Type? && prefix <= c.cell.lock.args
              && parse(c) == Some(u)
  {
    FilterFacts(cells, c => Hit(c, codeHash, prefix));
    SelectFacts(Query(cells, codeHash, prefix), parse, u);
  }

  lemma {:induction false} SelectFacts<T, U>(items: seq<T>, parse: T -> Option<U>, u: U)
    ensures u in Select(items, parse) <==> exists x | x in items :: parse(x) == Some(u)
  {
    if items != [] {
      SelectFacts(items[1..], parse, u);
      assert forall x :: x in items <==> x == items[0] || x in items[1..];
    }
  }

  /** Selecting among hits is parsing exactly the kept items. */
  lemma SelectWhere<T, U>(items: seq<T>, hit: T -> bool, keep: T -> bool, parse: T -> Option<U>)
    requires forall x | x in items :: hit(x) && parse(x).Some? <==> keep(x)
    ensures var kept, found := Filter(items, keep), Select(Filter(items, hit), parse);
            |found| == |kept| && forall i :: 0 <= i < |found| ==> parse(kept[i]) == Some(found[i])
  {
    SelectSkips(items, hit, keep, parse);
    FilterFacts(items, keep);
    SelectAll(Filter(items, keep), parse);
  }

  lemma {:induction false} SelectSkips<T, U>(items: seq<T>, hit: T -> bool, keep: T -> bool, parse: T -> Option<U>)
    requires forall x | x in items :: hit(x) && parse(x).Some? <==> keep(x)
    ensures Select(Filter(items, hit), parse) == Select(Filter(items, keep), parse)
  {
    if items != [] {
      var x, rest := items[0], items[1..];
      assert items == [x] + rest && x in items && forall y | y in rest :: y in items;
      SelectSkips(rest, hit, keep, parse);
      FilterCons(x, rest, hit);
      FilterCons(x, rest, keep);
      SelectCons(x, Filter(rest, hit), parse);
      SelectCons(x, Filter(rest, keep), parse);
      hide Select, Filter;
    }
  }

  lemma {:induction false} SelectAll<T, U>(items: seq<T>, parse: T -> Option<U>)
    requires forall x | x in items :: parse(x).Some?
    ensures |Select(items, parse)| == |items|
    ensures forall i :: 0 <= i < |items| ==> parse(items[i]) == Some(Select(items, parse)[i])
  {
    if items != [] {
      SelectAll(items[1..], parse);
      assert parse(items[0]).Some?;
      assert Select(items, parse) == [parse(items[0]).value] + Select(items[1..], parse);
    }
  }

  lemma {:induction false} FilterFacts<T>(items: seq<T>, keep: T -> bool)
    ensures forall x :: x in Filter(items, keep) <==> x in items && keep(x)
  {
    if items != [] {
      FilterFacts(items[1..], keep);
      assert forall x :: x in items <==> x == items[0] || x in items[1..];
    }
  }

  /** Scanning with a key finds what filtering a full scan by that key finds. */
  lemma PrefixScanIsFilter(cells: seq<LiveCell>, codeHash: Bytes32, key: CompressedPubkey)
    ensures Select(Query(cells, codeHash, PrefixOf(Some(key))), ParseOrderCell)
         == Filter(Select(Query(cells, codeHash, PrefixOf(None)), ParseOrderCell),
                   (o: OrderInfo) => o.orderArgs.fiberPubkey == key)
    ensures Select(Query(cells, codeHash, PrefixOf(Some(key))), ParseMatchCell)
         == Filter(Select(Query(cells, codeHash, PrefixOf(None)), ParseMatchCell),
                   (m: MatchInfo) => m.matchArgs.orderArgs.fiberPubkey == key)
  {
    hide ParseOrderCell, ParseMatchCell;
    forall c | c in cells {
      KeyIsPrefix(c, key);
    }
    SelectNarrowed(cells, c => Hit(c, codeHash, []), c => Hit(c, codeHash, key.ToBytes()), ParseOrderCell,
                   (o: OrderInfo) => o.orderArgs.fiberPubkey == key);
    SelectNarrowed(cells, c => Hit(c, codeHash, []), c => Hit(c, codeHash, key.ToBytes()), ParseMatchCell,
                   (m: MatchInfo) => m.matchArgs.orderArgs.fiberPubkey == key);
  }

  /** Both kinds of lock args start with the key. */
  lemma KeyIsPrefix(c: LiveCell, key: CompressedPubkey)
    ensures ParseOrderCell(c).Some? ==>
              (key.ToBytes() <= c.cell.lock.args <==> ParseOrderCell(c).value.orderArgs.fiberPubkey == key)
    ensures ParseMatchCell(c).Some? ==>
              (key.ToBytes() <= c.cell.lock.args <==> ParseMatchCell(c).value.matchArgs.orderArgs.fiberPubkey == key)
  {
    var args := c.cell.lock.args;
    if |args| >= 65 {
      assert args[..65][..33] == args[..33];
      assert key.ToBytes() <= args <==> args[..33] == key.bytes;
    }
  }

  lemma {:induction false} SelectNarrowed<T, U>(items: seq<T>, wide: T -> bool, narrow: T -> bool,
                                                parse: T -> Option<U>, ok: U -> bool)
    requires forall x | x in items :: narrow(x) ==> wide(x)
    requires forall x | x in items :: wide(x) && parse(x).Some? ==> (narrow(x) <==> ok(parse(x).value))
    ensures Select(Filter(items, narrow), parse) == Filter(Select(Filter(items, wide), parse), ok)
  {
    if items != [] {
      var x, wides, narrows := items[0], Filter(items[1..], wide), Filter(items[1..], narrow);
      var rest := Select(wides, parse);
      SelectNarrowed(items[1..], wide, narrow, parse, ok);
      assert Filter(items, wide) == if wide(x) then [x] + wides else wides;
      assert Filter(items, narrow) == if narrow(x) then [x] + narrows else narrows;
      SelectCons(x, wides, parse);
      SelectCons(x, narrows, parse);
      if wide(x) && parse(x).Some? {
        FilterCons(parse(x).value, rest, ok);
      }
    }
  }

  lemma FilterCons<T>(x: T, rest: seq<T>, keep: T -> bool)
    ensures Filter([x] + rest, keep) == if keep(x) then [x] + Filter(rest, keep) else Filter(rest, keep)
  {
    assert ([x] + rest)[1..] == rest;
  }
}
