// The transactions the calculator builds, seen by the contract.
module Lifecycle {
  import opened Machine
  import opened LittleEndian
  import opened Protocol
  import opened Cells
  import opened State
  import opened Verifiers
  import opened Ledger
  import opened Runs
  import opened Types
  import opened Reader
  import opened Calculator

  /** The chain offers what a party needs to spend `c`: the cell itself under the
      deployed contract's lock, and a cell under the party's own lock. */
  predicate Ready(env: Env, party: Address, c: LiveCell) {
    && FindAt(env.live, c.outPoint) == Some(c)
    && FindLocked(env.live, party.lock).Some?
    && FindLocked(env.live, party.lock).value.lockHash == party.lockHash
    && c.cell.Stored()
    && c.cell.lock.codeHash == env.codeHash && c.cell.lock.hashType.Type?
    && (party.lock.codeHash == c.cell.lock.codeHash ==> !party.lock.hashType.Type?)
  }

  /** Balancing adds no cell of the contract. */
  predicate Neutral(b: Balance, c: LiveCell) {
    && (forall x | x in b.inputs :: x.cell.lock != c.cell.lock)
    && (forall o | o in b.outputs :: o.lock.codeHash == c.cell.lock.codeHash ==> !o.lock.hashType.Type?)
  }

  predicate Distinct<T(==)>(s: seq<T>) {
    forall i, j | 0 <= i < j < |s| :: s[i] != s[j]
  }

  // ---------------------------------------------------------------------------
  // The two copies of the rent law
  // ---------------------------------------------------------------------------

  lemma OffChainRent(c: LiveCell, info: MatchInfo, tip: u64)
    requires c.cell.Stored() && ParseMatchCell(c) == Some(info) && IsMatch(c)
    ensures info.ExtractionAmount(tip) == if Abs(c).Rent(tip) < U64_SPAN then Ok(Abs(c).Rent(tip)) else Trap
    ensures info.xudt.None? && Abs(c).Rent(tip) < U64_SPAN ==> info.IsExhausted(tip) == Ok(Abs(c).Exhausted(tip))
  {
    hide StateOf, ParseMatchCell, ParseXudt, TokenOf, MatchArgs.ToBytes, Cell.Size;
    InfoFacts(c, info);
  }

  /** Off chain and on chain compute the same rent and the same exhaustion, overflow
      included, for every match cell and every transaction with the headers. */
  lemma RentLawsAgree(c: LiveCell, info: MatchInfo, tx: Transaction)
    requires c.cell.Stored() && ParseMatchCell(c) == Some(info)
    requires IsMatch(c) && HeadersPresent(tx, c)
    ensures LiquidityRent(StateOf(c.cell).value, tx, c) == info.ExtractionAmount(tx.headerDeps[0])
    ensures IsExhausted(StateOf(c.cell).value, tx, c) == info.IsExhausted(tx.headerDeps[0])
    ensures info.ExtractionAmount(tx.headerDeps[0]) ==
            if Abs(c).Rent(tx.headerDeps[0]) < U64_SPAN then Ok(Abs(c).Rent(tx.headerDeps[0])) else Trap
  {
    hide StateOf, ParseMatchCell;
    MatchParserAgrees(c);
    RentIsIdeal(tx, c);
    InfoFacts(c, info);
  }

  lemma InfoFacts(c: LiveCell, info: MatchInfo)
    requires c.cell.Stored() && ParseMatchCell(c) == Some(info)
    ensures IsMatch(c) && ArgsOf(c) == info.matchArgs && DataOf(c) == info.matchData
    ensures info.ckbCapacity == c.cell.Unoccupied() && info.xudt == ParseXudt(c.cell)
    ensures info.xudt == TokenOf(c.cell, info.matchData.xudtAmount)
    ensures info.matchOutpoint == c.outPoint && info.matchCurrentBlock == c.block
    ensures |c.cell.data| >= MATCH_DATA_LEN && c.cell.lock.args == info.matchArgs.ToBytes()
  {
    MatchParserAgrees(c);
    ParsersAreExact(c.cell.lock.args);
    ParsersAreExact(c.cell.data);
  }

  // ---------------------------------------------------------------------------
  // Running the builders
  // ---------------------------------------------------------------------------

  /** A list of operations passes through a given list of transactions. */
  lemma {:induction false} RunTrace(ops: Instruction, env: Env, trace: seq<Transaction>)
    requires |trace| == |ops| + 1
    requires forall i :: 0 <= i < |ops| ==> Apply(ops[i], env, trace[i]) == Ok(trace[i + 1])
    ensures RunOps(ops, env, trace[0]) == Ok(trace[|ops|])
  {
    hide Apply;
    if ops != [] {
      assert forall i :: 0 <= i < |ops| - 1 ==> ops[1..][i] == ops[i + 1] && trace[1..][i] == trace[i + 1];
      RunTrace(ops[1..], env, trace[1..]);
    }
  }

  /** The cell an extraction leaves. */
  function ExtractOutput(c: LiveCell, info: MatchInfo, rent: u64, tip: u64): Cell
    requires info.xudt.None? ==> rent <= c.cell.capacity
  {
    Cell(if info.xudt.Some? then c.cell.capacity else c.cell.capacity - rent,
         c.cell.lock, c.cell.typeScript, ExtractedData(info, rent, tip).ToBytes())
  }

  function HeaderDepsFor(info: MatchInfo, tip: u64): seq<u64> {
    [tip] + (if info.matchData.lastExtractionBlock == 0 then [info.matchCurrentBlock] else [])
  }

  lemma ExtractBuilds(env: Env, deps: seq<LiveCell>, seller: Address, c: LiveCell, info: MatchInfo, tip: u64, rent: u64)
    requires Ready(env, seller, c) && ParseMatchCell(c) == Some(info) && tip <= env.height
    requires info.IsExhausted(tip) == Ok(false) && info.ExtractionAmount(tip) == Ok(rent)
    requires info.xudt.None? ==> rent <= c.cell.capacity
    requires FindAt(env.live, info.matchArgs.channelOutpoint).Some?
    ensures var channel := FindAt(env.live, info.matchArgs.channelOutpoint).value;
            Build(ExtractRentOps(seller, info, tip).value, env, deps) ==
            Ok(Transaction(deps + [env.contractDep, channel], HeaderDepsFor(info, tip),
                           [FindLocked(env.live, seller.lock).value, c],
                           [ExtractOutput(c, info, rent, tip)]))
  {
    hide ParseMatchCell, StateOf, ParseXudt, ToLe, CheckedMul;
    InfoFacts(c, info);
    var channel := FindAt(env.live, info.matchArgs.channelOutpoint).value;
    ExtractInputsRun(env, deps, seller, c, info, tip);
    var mid := Transaction(deps + [env.contractDep, channel], HeaderDepsFor(info, tip),
                           [FindLocked(env.live, seller.lock).value, c], []);
    var op := AddOutputCellByInputIndex(None, None, Some(ExtractedData(info, rent, tip).ToBytes()),
                                        if info.xudt.Some? then Keep else Subtract(rent));
    assert info.xudt.Some? ==> Adjusted(c.cell.capacity, Keep) == Ok(c.cell.capacity);
    hide FindAt, FindLocked, RunOps, ExtractInputs;
    RunAppend(ExtractInputs(seller, info, tip), [op], env, Transaction(deps, [], [], []));
    RunOne(op, env, mid);
    assert [] + [ExtractOutput(c, info, rent, tip)] == [ExtractOutput(c, info, rent, tip)];
  }

  lemma ExtractInputsRun(env: Env, deps: seq<LiveCell>, seller: Address, c: LiveCell, info: MatchInfo, tip: u64)
    requires FindAt(env.live, info.matchOutpoint) == Some(c) && c.block == info.matchCurrentBlock && tip <= env.height
    requires FindAt(env.live, info.matchArgs.channelOutpoint).Some? && FindLocked(env.live, seller.lock).Some?
    ensures RunOps(ExtractInputs(seller, info, tip), env, Transaction(deps, [], [], [])) ==
            Ok(Transaction(deps + [env.contractDep, FindAt(env.live, info.matchArgs.channelOutpoint).value],
                           HeaderDepsFor(info, tip), [FindLocked(env.live, seller.lock).value, c], []))
  {
    hide FindAt, FindLocked;
    var u, channel := FindLocked(env.live, seller.lock).value, FindAt(env.live, info.matchArgs.channelOutpoint).value;
    assert deps + [env.contractDep] + [channel] == deps + [env.contractDep, channel];
    assert [] + [tip] == [tip] && [] + [u] == [u] && [u] + [c] == [u, c] && [tip] + [c.block] == [tip, c.block];
    var trace := [Transaction(deps, [], [], []),
                  Transaction(deps + [env.contractDep], [], [], []),
                  Transaction(deps + [env.contractDep, channel], [], [], []),
                  Transaction(deps + [env.contractDep, channel], [tip], [], []),
                  Transaction(deps + [env.contractDep, channel], [tip], [u], []),
                  Transaction(deps + [env.contractDep, channel], [tip], [u, c], [])];
    if info.matchData.lastExtractionBlock == 0 {
      trace := trace + [Transaction(deps + [env.contractDep, channel], [tip, c.block], [u, c], [])];
    }
    var ops := ExtractInputs(seller, info, tip);
    RunTrace(ops, env, trace);
    assert HeaderDepsFor(info, tip) == if info.matchData.lastExtractionBlock == 0 then [tip, c.block] else [tip];
    assert trace[|ops|] == trace[|trace| - 1];
  }

  lemma DestroyBuilds(env: Env, deps: seq<LiveCell>, seller: Address, c: LiveCell, info: MatchInfo, tip: u64)
    requires Ready(env, seller, c) && ParseMatchCell(c) == Some(info) && tip <= env.height && c.block <= env.height
    ensures var out := Cell(c.cell.capacity, seller.lock, c.cell.typeScript,
                            if info.xudt.Some? then ToLe(info.xudt.value.amount, 16) else []);
            Build(DestroyMatchOps(seller, info, tip), env, deps) ==
            Ok(Transaction(deps + (if info.xudt.Some? then [env.contractDep, env.xudtDep] else [env.contractDep]),
                           HeaderDepsFor(info, tip), [c, FindLocked(env.live, seller.lock).value], [out]))
  {
    hide ParseMatchCell, StateOf, ParseXudt, ToLe;
    InfoFacts(c, info);
    hide FindAt, FindLocked, RunOps, DestroyInputs;
    DestroyInputsRun(env, deps, seller, c, info, tip);
    var u := FindLocked(env.live, seller.lock).value;
    var mid := Transaction(deps + [env.contractDep], HeaderDepsFor(info, tip), [c, u], []);
    var out := Cell(c.cell.capacity, seller.lock, c.cell.typeScript,
                    if info.xudt.Some? then ToLe(info.xudt.value.amount, 16) else []);
    var inputs, ops := DestroyInputs(seller, info, tip), DestroyMatchOps(seller, info, tip);
    var op := AddOutputCellByInputIndex(Some(0), Some(Own(seller.lock)), Some(out.data), Keep);
    RunAppend(inputs, ops[|inputs|..], env, Transaction(deps, [], [], []));
    assert ops == inputs + ops[|inputs|..] && [] + [out] == [out];
    if info.xudt.Some? {
      var mid' := mid.(cellDeps := deps + [env.contractDep] + [env.xudtDep]);
      assert mid'.cellDeps == deps + [env.contractDep, env.xudtDep];
      assert ops[|inputs|..] == [AddXudtCelldep] + [op];
      RunAppend([AddXudtCelldep], [op], env, mid);
      RunOne(AddXudtCelldep, env, mid);
      RunOne(op, env, mid');
    } else {
      assert ops[|inputs|..] == [op];
      RunOne(op, env, mid);
    }
  }

  lemma DestroyInputsRun(env: Env, deps: seq<LiveCell>, seller: Address, c: LiveCell, info: MatchInfo, tip: u64)
    requires FindAt(env.live, info.matchOutpoint) == Some(c) && c.block == info.matchCurrentBlock <= env.height
    requires tip <= env.height && FindLocked(env.live, seller.lock).Some?
    ensures RunOps(DestroyInputs(seller, info, tip), env, Transaction(deps, [], [], [])) ==
            Ok(Transaction(deps + [env.contractDep], HeaderDepsFor(info, tip),
                           [c, FindLocked(env.live, seller.lock).value], []))
  {
    hide FindAt, FindLocked;
    var u := FindLocked(env.live, seller.lock).value;
    assert [] + [tip] == [tip] && [] + [c] == [c] && [c] + [u] == [c, u] && [tip] + [c.block] == [tip, c.block];
    var d := deps + [env.contractDep];
    var trace := [Transaction(deps, [], [], []), Transaction(d, [], [], []), Transaction(d, [tip], [], []),
                  Transaction(d, [tip], [c], []), Transaction(d, [tip], [c, u], [])];
    if info.matchData.lastExtractionBlock == 0 {
      trace := trace + [Transaction(d, [tip, c.block], [c, u], [])];
    }
    var ops := DestroyInputs(seller, info, tip);
    RunTrace(ops, env, trace);
    assert HeaderDepsFor(info, tip) == if info.matchData.lastExtractionBlock == 0 then [tip, c.block] else [tip];
    assert trace[|ops|] == trace[|trace| - 1];
  }

  /** The cell a buyer update leaves. */
  function UpdateOutput(c: LiveCell, info: MatchInfo, newXudtAmount: u128, capacity: u64): Cell {
    Cell(capacity, c.cell.lock, c.cell.typeScript, info.matchData.(xudtAmount := newXudtAmount).ToBytes())
  }

  lemma UpdateBuilds(env: Env, deps: seq<LiveCell>, buyer: Address, c: LiveCell, info: MatchInfo,
                     newXudtAmount: u128, delta: i64)
    requires Ready(env, buyer, c) && ParseMatchCell(c) == Some(info)
    requires delta > -0x8000_0000_0000_0000 && 0 <= c.cell.capacity + delta < U64_SPAN
    ensures var ops := UpdateMatchBuyerOps(buyer, info, newXudtAmount, delta);
            && ops.Ok?
            && Build(ops.value, env, deps) ==
               Ok(Transaction(deps + [env.contractDep], [], [c, FindLocked(env.live, buyer.lock).value],
                              [UpdateOutput(c, info, newXudtAmount, c.cell.capacity + delta)]))
  {
    hide ParseMatchCell, StateOf, ParseXudt;
    InfoFacts(c, info);
    hide FindAt, FindLocked;
    var u, out := FindLocked(env.live, buyer.lock).value, UpdateOutput(c, info, newXudtAmount, c.cell.capacity + delta);
    assert [] + [c] == [c] && [c] + [u] == [c, u] && [] + [out] == [out];
    var trace := [Transaction(deps, [], [], []),
                  Transaction(deps + [env.contractDep], [], [], []),
                  Transaction(deps + [env.contractDep], [], [c], []),
                  Transaction(deps + [env.contractDep], [], [c, u], []),
                  Transaction(deps + [env.contractDep], [], [c, u], [out])];
    var ops := UpdateMatchBuyerOps(buyer, info, newXudtAmount, delta).value;
    assert Apply(ops[3], env, trace[3]) == Ok(trace[4]);
    assert Apply(ops[2], env, trace[2]) == Ok(trace[3]) && Apply(ops[1], env, trace[1]) == Ok(trace[2]);
    assert Apply(ops[0], env, trace[0]) == Ok(trace[1]) && |ops| == 4;
    hide Apply, UpdateMatchBuyerOps;
    RunTrace(ops, env, trace);
  }

  /** The cell an order match leaves. */
  function MatchOutput(c: LiveCell, info: OrderInfo, matchArgs: MatchArgs, capacity: u64): Cell {
    Cell(capacity, Script(c.cell.lock.codeHash, Type, matchArgs.ToBytes()), c.cell.typeScript,
         MatchData.New(if info.xudt.Some? then info.xudt.value.amount else 0, info.orderData.shannonsPerBlock).ToBytes())
  }

  lemma MatchBuilds(env: Env, deps: seq<LiveCell>, seller: Address, c: LiveCell, info: OrderInfo, matchArgs: MatchArgs)
    requires Ready(env, seller, c) && info.orderOutpoint == c.outPoint
    requires FindAt(env.live, matchArgs.channelOutpoint).Some?
    requires c.cell.capacity + ORDER_TO_MATCH_CAPACITY_RESERVE < U64_SPAN
    ensures var channel := FindAt(env.live, matchArgs.channelOutpoint).value;
            Build(MatchOrder(seller, info, matchArgs), env, deps) ==
            Ok(Transaction(deps + [env.contractDep, channel], [channel.block, c.block],
                           [c, FindLocked(env.live, seller.lock).value],
                           [MatchOutput(c, info, matchArgs, c.cell.capacity + ORDER_TO_MATCH_CAPACITY_RESERVE)]))
  {
    hide FindAt, FindLocked, RunOps, MatchInputs;
    MatchInputsRun(env, deps, seller, c, info, matchArgs.channelOutpoint);
    var u, channel := FindLocked(env.live, seller.lock).value, FindAt(env.live, matchArgs.channelOutpoint).value;
    var mid := Transaction(deps + [env.contractDep, channel], [channel.block, c.block], [c, u], []);
    var inputs, ops := MatchInputs(seller, info, matchArgs.channelOutpoint), MatchOrder(seller, info, matchArgs);
    var op := ops[|inputs|];
    assert ops == inputs + [op];
    RunAppend(inputs, [op], env, Transaction(deps, [], [], []));
    RunOne(op, env, mid);
    var out := MatchOutput(c, info, matchArgs, c.cell.capacity + ORDER_TO_MATCH_CAPACITY_RESERVE);
    assert [] + [out] == [out];
  }

  lemma MatchInputsRun(env: Env, deps: seq<LiveCell>, seller: Address, c: LiveCell, info: OrderInfo, channelAt: OutPoint)
    requires FindAt(env.live, info.orderOutpoint) == Some(c)
    requires FindAt(env.live, channelAt).Some? && FindLocked(env.live, seller.lock).Some?
    ensures var channel := FindAt(env.live, channelAt).value;
            RunOps(MatchInputs(seller, info, channelAt), env, Transaction(deps, [], [], [])) ==
            Ok(Transaction(deps + [env.contractDep, channel], [channel.block, c.block],
                           [c, FindLocked(env.live, seller.lock).value], []))
  {
    hide FindAt, FindLocked;
    var u, channel := FindLocked(env.live, seller.lock).value, FindAt(env.live, channelAt).value;
    assert deps + [env.contractDep] + [channel] == deps + [env.contractDep, channel];
    assert [] + [c] == [c] && [c] + [u] == [c, u];
    assert [] + [channel.block] == [channel.block] && [channel.block] + [c.block] == [channel.block, c.block];
    var trace := [Transaction(deps, [], [], []),
                  Transaction(deps + [env.contractDep], [], [], []),
                  Transaction(deps + [env.contractDep, channel], [], [], []),
                  Transaction(deps + [env.contractDep, channel], [channel.block], [], []),
                  Transaction(deps + [env.contractDep, channel], [channel.block], [c], []),
                  Transaction(deps + [env.contractDep, channel], [channel.block, c.block], [c], []),
                  Transaction(deps + [env.contractDep, channel], [channel.block, c.block], [c, u], [])];
    RunTrace(MatchInputs(seller, info, channelAt), env, trace);
  }

  // ---------------------------------------------------------------------------
  // Scope of a built transaction
  // ---------------------------------------------------------------------------

  /** A two-input transaction stays within the scope after balancing. */
  lemma BuiltScope(tx: Transaction, b: Balance, c: LiveCell, party: LiveCell, out: Cell)
    requires (tx.inputs == [c, party] || tx.inputs == [party, c]) && tx.outputs == [out]
    requires party.cell.lock != c.cell.lock && Neutral(b, c)
    ensures Sole(Balanced(tx, b), c) && HasInputLock(Balanced(tx, b), party.lockHash)
    ensures FindOpticrum(Balanced(tx, b).outputs, c.cell.lock) ==
            if out.lock.codeHash == c.cell.lock.codeHash && out.lock.hashType.Type? then Some(out) else None
  {
    var full := Balanced(tx, b);
    assert full.inputs[0] in full.inputs && full.inputs[1] in full.inputs;
    assert forall x | x in full.inputs :: x in tx.inputs || x in b.inputs;
    assert full.outputs == [out] + b.outputs;
    var i := FindOpticrumFacts(full.outputs, c.cell.lock);
  }

  lemma ChannelInDeps(env: Env, tx: Transaction, b: Balance, channel: OutPoint)
    requires FindAt(env.live, channel).Some? && FindAt(env.live, channel).value in tx.cellDeps
    ensures exists dep | dep in Balanced(tx, b).cellDeps :: dep.outPoint == channel
  {
    var i := FindAtFacts(env.live, channel);
    var dep := FindAt(env.live, channel).value;
    assert dep in Balanced(tx, b).cellDeps;
  }

  /** A cell written by the tools reads back as what was written. */
  lemma RebuiltMatch(cell: Cell, matchArgs: MatchArgs, matchData: MatchData)
    requires cell.lock.args == matchArgs.ToBytes() && cell.data == matchData.ToBytes()
    ensures StateOf(cell) == Ok(OpticrumState(Match(matchArgs, matchData), cell.Unoccupied(),
                                              TokenOf(cell, matchData.xudtAmount)))
  {
    MatchArgsRoundTrip(matchArgs);
    MatchDataRoundTrip(matchData, []);
    assert matchData.ToBytes() + [] == matchData.ToBytes();
  }

  // ---------------------------------------------------------------------------
  // Extract and destroy
  // ---------------------------------------------------------------------------

  /** What the seller's client knows before it builds. */
  predicate SellerReady(env: Env, b: Balance, seller: Address, c: LiveCell, info: MatchInfo, tip: u64) {
    && Ready(env, seller, c) && Neutral(b, c)
    && ParseMatchCell(c) == Some(info)
    && seller.lockHash == info.matchArgs.sellerLockHash
    && tip <= env.height && c.block <= env.height
  }

  /** Capacity arithmetic of an extraction: data beyond 32 bytes is dropped, and its
      capacity falls back into the pool. */
  lemma ExtractOutputPool(c: LiveCell, info: MatchInfo, rent: u64, tip: u64)
    requires c.cell.Stored() && ParseMatchCell(c) == Some(info)
    requires info.xudt.None? ==> rent <= c.cell.Unoccupied()
    ensures var out := ExtractOutput(c, info, rent, tip);
            && out.Stored() && out.lock == c.cell.lock
            && out.Unoccupied() == c.cell.Unoccupied() - (if info.xudt.Some? then 0 else rent)
                                   + (|c.cell.data| - MATCH_DATA_LEN) * CKB_DECIMAL
  {
    hide ParseMatchCell, StateOf, ParseXudt;
    InfoFacts(c, info);
  }

  /** The extraction the calculator builds is accepted exactly when the match carries
      no data beyond its 32 bytes, or no rent is due; on a token match only the
      latter helps. */
  lemma ExtractAccepted(env: Env, deps: seq<LiveCell>, b: Balance, seller: Address, c: LiveCell, info: MatchInfo,
                        tip: u64, rent: u64)
    requires SellerReady(env, b, seller, c, info, tip)
    requires info.IsExhausted(tip) == Ok(false) && info.ExtractionAmount(tip) == Ok(rent)
    requires FindAt(env.live, info.matchArgs.channelOutpoint).Some?
    ensures info.xudt.None? ==> rent < info.ckbCapacity <= c.cell.capacity
    ensures ExtractRentOps(seller, info, tip).Ok?
    ensures var built := Build(ExtractRentOps(seller, info, tip).value, env, deps);
            && built.Ok?
            && var tx, out := Balanced(built.value, b), ExtractOutput(c, info, rent, tip);
               && built.value.outputs == [out] && out.Stored()
               && (forall x | x in built.value.inputs :: x == c || x.lockHash == seller.lockHash)
               && Sole(tx, c) && HasInputLock(tx, seller.lockHash)
               && tx.headerDeps == HeaderDepsFor(info, tip)
               && FindOpticrum(tx.outputs, c.cell.lock) == Some(out)
               && (!HasInputLock(tx, info.matchArgs.orderArgs.buyerLockHash) ==>
                     (Verify(tx, c.cell.lock).Ok? <==>
                      rent == 0 || (info.xudt.None? && |c.cell.data| == MATCH_DATA_LEN)))
  {
    hide ParseMatchCell, StateOf, ParseXudt, Verify, Build, FindAt, FindLocked, FindOpticrum, HasInputLock, VerifyMatchUpdate,
      ExtractOutput, ExtractInputs, ExtractedData;
    InfoFacts(c, info);
    ExtractBuilds(env, deps, seller, c, info, tip, rent);
    ExtractOutputPool(c, info, rent, tip);
    var built := Build(ExtractRentOps(seller, info, tip).value, env, deps).value;
    var tx, out := Balanced(built, b), ExtractOutput(c, info, rent, tip);
    var at := FindLockedFacts(env.live, seller.lock);
    BuiltScope(built, b, c, FindLocked(env.live, seller.lock).value, out);
    ChannelInDeps(env, built, b, info.matchArgs.channelOutpoint);
    if !HasInputLock(tx, info.matchArgs.orderArgs.buyerLockHash) {
      ExtractVerdict(c, info, tx, tip, rent);
    }
  }

  lemma ExtractVerdict(c: LiveCell, info: MatchInfo, tx: Transaction, tip: u64, rent: u64)
    requires c.cell.Stored() && ParseMatchCell(c) == Some(info)
    requires info.IsExhausted(tip) == Ok(false) && info.ExtractionAmount(tip) == Ok(rent)
    requires info.xudt.None? ==> rent < info.ckbCapacity == c.cell.Unoccupied()
    requires Sole(tx, c) && tx.headerDeps == HeaderDepsFor(info, tip)
    requires FindOpticrum(tx.outputs, c.cell.lock) == Some(ExtractOutput(c, info, rent, tip))
    requires exists dep | dep in tx.cellDeps :: dep.outPoint == info.matchArgs.channelOutpoint
    requires HasInputLock(tx, info.matchArgs.sellerLockHash)
    requires !HasInputLock(tx, info.matchArgs.orderArgs.buyerLockHash)
    ensures Verify(tx, c.cell.lock).Ok? <==> rent == 0 || (info.xudt.None? && |c.cell.data| == MATCH_DATA_LEN)
  {
    hide ParseMatchCell, ParseXudt, Verify, FindOpticrum, HasInputLock, ParseBranch;
    InfoFacts(c, info);
    var out := ExtractOutput(c, info, rent, tip);
    assert HeadersPresent(tx, c);
    RentLawsAgree(c, info, tx);
    RebuiltMatch(out, info.matchArgs, ExtractedData(info, rent, tip));
    ExtractOutputPool(c, info, rent, tip);
    var o := LiveCell(c.outPoint, out, c.lockHash, c.block);
    if info.xudt.None? {
      UpdateExact(tx, c, o);
    } else {
      TokenAmount(c);
      TokenUpdateExact(tx, c, o);
    }
  }

  /** The output gives the party everything the cell held: all its capacity and its
      tokens. */
  predicate HandsOver(outputs: seq<Cell>, party: Address, c: LiveCell) {
    && |outputs| == 1 && outputs[0].lock == party.lock
    && outputs[0].capacity == c.cell.capacity && ParseXudt(outputs[0]) == ParseXudt(c.cell)
  }

  lemma TokenCell(out: Cell, c: LiveCell, xudt: Option<Xudt>)
    requires xudt == ParseXudt(c.cell)
    requires match xudt
             case Some(x) => out.typeScript == Some(x.typeScript) && out.data == ToLe(x.amount, 16)
             case None => out.data == []
    ensures ParseXudt(out) == ParseXudt(c.cell)
  {
    if xudt.Some? {
      ReadBack128(xudt.value.amount);
      assert out.data[..16] == out.data;
    }
  }

  /** The destroy the calculator builds is accepted exactly when the match is
      exhausted; computing the rent may trap instead. */
  lemma DestroyAccepted(env: Env, deps: seq<LiveCell>, b: Balance, seller: Address, c: LiveCell, info: MatchInfo, tip: u64)
    requires SellerReady(env, b, seller, c, info, tip)
    ensures var built := Build(DestroyMatchOps(seller, info, tip), env, deps);
            && built.Ok?
            && var tx := Balanced(built.value, b);
               && Sole(tx, c)
               && tx.headerDeps == HeaderDepsFor(info, tip)
               && FindOpticrum(tx.outputs, c.cell.lock) == None
               && HandsOver(built.value.outputs, seller, c)
               && (Verify(tx, c.cell.lock).Ok? <==> info.IsExhausted(tip) == Ok(true))
  {
    hide ParseMatchCell, StateOf, ParseXudt, Verify, Build, DestroyMatchOps, FindAt, FindLocked, FindOpticrum, HasInputLock;
    InfoFacts(c, info);
    DestroyBuilds(env, deps, seller, c, info, tip);
    var built := Build(DestroyMatchOps(seller, info, tip), env, deps).value;
    var tx := Balanced(built, b);
    var at := FindLockedFacts(env.live, seller.lock);
    BuiltScope(built, b, c, FindLocked(env.live, seller.lock).value, built.outputs[0]);
    if info.xudt.Some? {
      TokenAmount(c);
    }
    TokenCell(built.outputs[0], c, info.xudt);
    assert HeadersPresent(tx, c);
    RentLawsAgree(c, info, tx);
    if info.xudt.None? {
      DestroyExact(tx, c);
    } else {
      TokenAmount(c);
      TokenDestroyExact(tx, c);
    }
  }

  /** Refinement. For every CKB match with 32-byte data, and no overflow, what
      `extract_rent` builds is accepted, and it is routed to the destroy verifier
      exactly when the off-chain side calls the match exhausted, to the update verifier
      otherwise. Its header deps are distinct unless the tip is the very block that
      created a never extracted match. */
  lemma ExtractRentRefines(env: Env, deps: seq<LiveCell>, b: Balance, seller: Address, c: LiveCell, info: MatchInfo, tip: u64)
    requires SellerReady(env, b, seller, c, info, tip)
    requires info.xudt.None? && |c.cell.data| == MATCH_DATA_LEN
    requires info.IsExhausted(tip).Ok?
    requires !info.IsExhausted(tip).value ==> FindAt(env.live, info.matchArgs.channelOutpoint).Some?
    ensures var built := Build(ExtractRentOps(seller, info, tip).value, env, deps);
            && built.Ok?
            && var tx := Balanced(built.value, b);
               && (!HasInputLock(tx, info.matchArgs.orderArgs.buyerLockHash) ==>
                     && Verify(tx, c.cell.lock).Ok?
                     && Root(tx, c).Ok?
                     && Root(tx, c).value.pattern == if info.IsExhausted(tip).value then MatchDestroy else MatchUpdate)
               && (Distinct(tx.headerDeps) <==> !(info.matchData.lastExtractionBlock == 0 && tip == c.block))
  {
    hide ParseMatchCell, ParseXudt, Build, DestroyMatchOps, FindAt, FindLocked, FindOpticrum, HasInputLock,
      VerifyMatchUpdate, VerifyMatchDestroy, ParseBranch, ExtractOutput;
    InfoFacts(c, info);
    var tx := Transaction([], [], [], []);
    if info.IsExhausted(tip).value {
      DestroyAccepted(env, deps, b, seller, c, info, tip);
      tx := Balanced(Build(DestroyMatchOps(seller, info, tip), env, deps).value, b);
    } else {
      ExtractAccepted(env, deps, b, seller, c, info, tip, info.ExtractionAmount(tip).value);
      tx := Balanced(Build(ExtractRentOps(seller, info, tip).value, env, deps).value, b);
    }
    SoleIsHead(tx, c);
    HeadersDistinct(info, tip);
  }

  lemma HeadersDistinct(info: MatchInfo, tip: u64)
    ensures Distinct(HeaderDepsFor(info, tip)) <==>
            !(info.matchData.lastExtractionBlock == 0 && tip == info.matchCurrentBlock)
  {
    var h := HeaderDepsFor(info, tip);
    if info.matchData.lastExtractionBlock == 0 {
      assert h[0] == tip && h[1] == info.matchCurrentBlock;
    }
  }

  /** Capacity that rewriting the data of a match frees: what lies beyond 32 bytes. */
  function Freed(c: LiveCell): int {
    (|c.cell.data| - MATCH_DATA_LEN) * CKB_DECIMAL
  }

  /** The tokens of a match whose data now record `amount`. */
  function Holding(info: MatchInfo, amount: u128): Option<Xudt> {
    if info.xudt.Some? then Some(info.xudt.value.(amount := amount)) else None
  }

  /** Simulation. Re-reading the cell an extraction leaves gives the info predicted: the
      clock at the tip, the rent taken from the capacity or from the tokens, what excess
      data freed added, nothing else. */
  lemma ExtractSimulates(c: LiveCell, info: MatchInfo, rent: u64, tip: u64, next: LiveCell)
    requires c.cell.Stored() && ParseMatchCell(c) == Some(info)
    requires info.xudt.None? ==> rent <= info.ckbCapacity <= c.cell.capacity
    requires next.cell == ExtractOutput(c, info, rent, tip)
    ensures var left := if info.xudt.Some? then SatSub(info.xudt.value.amount, rent) else 0;
            ParseMatchCell(next) ==
            Some(info.(matchData := MatchData(left, info.matchData.shannonsPerBlock, tip),
                 xudt := Holding(info, left),
                 ckbCapacity := info.ckbCapacity - (if info.xudt.Some? then 0 else rent) + Freed(c),
                 matchOutpoint := next.outPoint, matchCurrentBlock := next.block))
  {
    hide ParseMatchCell, StateOf, ParseXudt;
    InfoFacts(c, info);
    ExtractOutputPool(c, info, rent, tip);
    RebuiltMatch(next.cell, info.matchArgs, ExtractedData(info, rent, tip));
    MatchParserAgrees(next);
  }

  // ---------------------------------------------------------------------------
  // Buyer update
  // ---------------------------------------------------------------------------

  /** What `update_match_buyer` builds is accepted exactly when the seller stays out
      of it and, on a token match, the token amount is the old one. */
  lemma UpdateMatchBuyerAccepted(env: Env, deps: seq<LiveCell>, b: Balance, buyer: Address, c: LiveCell,
                                 info: MatchInfo, newXudtAmount: u128, delta: i64)
    requires Ready(env, buyer, c) && Neutral(b, c) && ParseMatchCell(c) == Some(info)
    requires buyer.lockHash == info.matchArgs.orderArgs.buyerLockHash
    requires delta > -0x8000_0000_0000_0000 && 0 <= c.cell.capacity + delta < U64_SPAN
    ensures var ops := UpdateMatchBuyerOps(buyer, info, newXudtAmount, delta);
            && ops.Ok? && Build(ops.value, env, deps).Ok?
            && var tx := Balanced(Build(ops.value, env, deps).value, b);
               && Sole(tx, c)
               && FindOpticrum(tx.outputs, c.cell.lock) == Some(UpdateOutput(c, info, newXudtAmount, c.cell.capacity + delta))
               && (Verify(tx, c.cell.lock).Ok? <==>
                   && !HasInputLock(tx, info.matchArgs.sellerLockHash)
                   && (info.xudt.Some? ==> newXudtAmount == info.xudt.value.amount))
  {
    hide ParseMatchCell, StateOf, ParseXudt, Verify, Build, UpdateMatchBuyerOps, FindAt, FindLocked, FindOpticrum, HasInputLock;
    InfoFacts(c, info);
    UpdateBuilds(env, deps, buyer, c, info, newXudtAmount, delta);
    var built := Build(UpdateMatchBuyerOps(buyer, info, newXudtAmount, delta).value, env, deps).value;
    var tx, out := Balanced(built, b), UpdateOutput(c, info, newXudtAmount, c.cell.capacity + delta);
    var at := FindLockedFacts(env.live, buyer.lock);
    BuiltScope(built, b, c, FindLocked(env.live, buyer.lock).value, out);
    RebuiltMatch(out, info.matchArgs, info.matchData.(xudtAmount := newXudtAmount));
    var o := LiveCell(c.outPoint, out, c.lockHash, c.block);
    StateFields(o);
    StateFields(c);
    if info.xudt.None? {
      UpdateExact(tx, c, o);
    } else {
      TokenAmount(c);
      TokenUpdateExact(tx, c, o);
    }
  }

  /** Re-reading the cell a buyer update leaves gives the info predicted: the capacity
      moved by exactly the delta and what excess data freed, rate and clock kept. */
  lemma UpdateSimulates(c: LiveCell, info: MatchInfo, newXudtAmount: u128, delta: i64, next: LiveCell)
    requires c.cell.Stored() && ParseMatchCell(c) == Some(info)
    requires 0 <= c.cell.capacity + delta < U64_SPAN
    requires next.cell == UpdateOutput(c, info, newXudtAmount, c.cell.capacity + delta) && next.cell.Stored()
    ensures ParseMatchCell(next) ==
            Some(info.(matchData := info.matchData.(xudtAmount := newXudtAmount),
                 xudt := Holding(info, newXudtAmount),
                 ckbCapacity := info.ckbCapacity + delta + Freed(c),
                 matchOutpoint := next.outPoint, matchCurrentBlock := next.block))
  {
    hide ParseMatchCell, StateOf, ParseXudt;
    InfoFacts(c, info);
    assert next.cell.Occupied() == c.cell.Occupied() - Freed(c);
    RebuiltMatch(next.cell, info.matchArgs, info.matchData.(xudtAmount := newXudtAmount));
    MatchParserAgrees(next);
  }

  // ---------------------------------------------------------------------------
  // Cancel
  // ---------------------------------------------------------------------------

  /** What `cancel_order` builds is always accepted, and any tokens go back to the
      buyer. The capacity goes back through balancing. */
  lemma CancelOrderAccepted(env: Env, deps: seq<LiveCell>, b: Balance, buyer: Address, c: LiveCell, info: OrderInfo)
    requires Ready(env, buyer, c) && Neutral(b, c) && ParseOrderCell(c) == Some(info)
    requires buyer.lockHash == info.orderArgs.buyerLockHash
    requires info.xudt.Some? ==>
               Cell(0, buyer.lock, Some(info.xudt.value.typeScript), ToLe(info.xudt.value.amount, 16)).Occupied() < U64_SPAN
    ensures var built := Build(CancelOrderOps(buyer, info), env, deps);
            && built.Ok?
            && var tx := Balanced(built.value, b);
               && Sole(tx, c) && FindOpticrum(tx.outputs, c.cell.lock) == None
               && Verify(tx, c.cell.lock).Ok?
               && env.contractDep in tx.cellDeps && (info.xudt.Some? ==> env.xudtDep in tx.cellDeps)
               && (match info.xudt
                   case None => built.value.outputs == []
                   case Some(x) =>
                     |built.value.outputs| == 1 && built.value.outputs[0].lock == buyer.lock
                     && built.value.outputs[0].Stored() && ParseXudt(built.value.outputs[0]) == ParseXudt(c.cell))
  {
    hide ParseOrderCell, StateOf, ParseXudt, Verify, ToLe, FindOpticrum, HasInputLock;
    OrderParserAgrees(c);
    var out := CancelBuilds(env, deps, buyer, c, info);
    hide FindAt, FindLocked, Build, CancelOrderOps;
    var built := Build(CancelOrderOps(buyer, info), env, deps).value;
    var tx, u := Balanced(built, b), FindLocked(env.live, buyer.lock).value;
    var at := FindLockedFacts(env.live, buyer.lock);
    OrderKeepsTokens(c, info);
    assert tx.inputs[0] == c && tx.inputs[1] == u;
    InputCounts(tx, 1);
    assert forall x | x in tx.inputs :: x in built.inputs || x in b.inputs;
    NoOpticrum(built.outputs, b.outputs, c.cell.lock);
    if info.xudt.Some? {
      TokenCell(out, c, info.xudt);
    }
    CancelExact(tx, c);
  }

  lemma InputCounts(tx: Transaction, i: nat)
    requires i < |tx.inputs|
    ensures HasInputLock(tx, tx.inputs[i].lockHash)
  {
    assert tx.inputs[i] in tx.inputs;
  }

  lemma OrderKeepsTokens(c: LiveCell, info: OrderInfo)
    requires c.cell.Stored() && ParseOrderCell(c) == Some(info)
    ensures info.xudt == ParseXudt(c.cell) && IsOrder(c) && OrderArgsOf(c) == info.orderArgs
  {
    OrderParserAgrees(c);
  }

  lemma NoOpticrum(a: seq<Cell>, b: seq<Cell>, self: Script)
    requires forall o | o in a :: o.lock.codeHash == self.codeHash ==> !o.lock.hashType.Type?
    requires forall o | o in b :: o.lock.codeHash == self.codeHash ==> !o.lock.hashType.Type?
    ensures FindOpticrum(a + b, self) == None
  {
    var i := FindOpticrumFacts(a + b, self);
  }

  lemma CancelBuilds(env: Env, deps: seq<LiveCell>, buyer: Address, c: LiveCell, info: OrderInfo) returns (out: Cell)
    requires FindAt(env.live, info.orderOutpoint) == Some(c) && FindLocked(env.live, buyer.lock).Some?
    requires info.xudt.Some? ==>
               Cell(0, buyer.lock, Some(info.xudt.value.typeScript), ToLe(info.xudt.value.amount, 16)).Occupied() < U64_SPAN
    ensures var built := Build(CancelOrderOps(buyer, info), env, deps);
            && built.Ok? && built.value.inputs == [c, FindLocked(env.live, buyer.lock).value]
            && built.value.headerDeps == []
            && built.value.cellDeps == deps + (if info.xudt.Some? then [env.contractDep, env.xudtDep] else [env.contractDep])
            && (match info.xudt
                case None => built.value.outputs == []
                case Some(x) =>
                  && built.value.outputs == [out] && out.Stored()
                  && out == Cell(out.capacity, buyer.lock, Some(x.typeScript), ToLe(x.amount, 16)))
  {
    hide FindAt, FindLocked, ToLe;
    var u := FindLocked(env.live, buyer.lock).value;
    assert [] + [c] == [c] && [c] + [u] == [c, u];
    var d := deps + [env.contractDep];
    var trace := [Transaction(deps, [], [], []), Transaction(d, [], [], []), Transaction(d, [], [c], []),
                  Transaction(d, [], [c, u], [])];
    out := c.cell;
    if info.xudt.Some? {
      var x := info.xudt.value;
      var bare := Cell(0, buyer.lock, Some(x.typeScript), ToLe(x.amount, 16));
      out := bare.(capacity := bare.Occupied());
      assert [] + [out] == [out];
      assert d + [env.xudtDep] == deps + [env.contractDep, env.xudtDep];
      trace := trace + [Transaction(d + [env.xudtDep], [], [c, u], []), Transaction(d + [env.xudtDep], [], [c, u], [out])];
    }
    var ops := CancelOrderOps(buyer, info);
    RunTrace(ops, env, trace);
    assert trace[|ops|] == trace[|trace| - 1];
  }

  // ---------------------------------------------------------------------------
  // Create and match
  // ---------------------------------------------------------------------------

  /** The reserve is what a match occupies beyond the order it came from, whatever the
      capacity and type script: the pool passes through untouched. */
  lemma ReserveIsGrowth(c: LiveCell, info: OrderInfo, matchArgs: MatchArgs)
    requires c.cell.Stored() && ParseOrderCell(c) == Some(info)
    requires c.cell.capacity + ORDER_TO_MATCH_CAPACITY_RESERVE < U64_SPAN
    ensures var out := MatchOutput(c, info, matchArgs, c.cell.capacity + ORDER_TO_MATCH_CAPACITY_RESERVE);
            && ORDER_TO_MATCH_CAPACITY_RESERVE == 6_800_000_000
            && out.Occupied() == c.cell.Occupied() + ORDER_TO_MATCH_CAPACITY_RESERVE
            && out.Stored() && out.Unoccupied() == c.cell.Unoccupied()
  {
    ParsersAreExact(c.cell.lock.args);
    ParsersAreExact(c.cell.data);
  }

  predicate MatchReady(env: Env, deps: seq<LiveCell>, b: Balance, seller: Address, c: LiveCell, info: OrderInfo,
                       matchArgs: MatchArgs)
  {
    && Ready(env, seller, c) && Neutral(b, c)
    && ParseOrderCell(c) == Some(info)
    && matchArgs.orderArgs == info.orderArgs && matchArgs.sellerLockHash == seller.lockHash
    && c.cell.capacity + ORDER_TO_MATCH_CAPACITY_RESERVE < U64_SPAN
    && FindAt(env.live, matchArgs.channelOutpoint).Some?
       // an outpoint names one cell
    && forall d | d in deps + [env.contractDep] ::
         d.outPoint == matchArgs.channelOutpoint ==> d == FindAt(env.live, matchArgs.channelOutpoint).value
  }

  /** What `match_order` builds is accepted exactly when the channel meets the order's
      demand and was created after it, and, on an order without a token type, the
      order records no tokens. */
  lemma MatchOrderAccepted(env: Env, deps: seq<LiveCell>, b: Balance, seller: Address, c: LiveCell, info: OrderInfo,
                           matchArgs: MatchArgs)
    requires MatchReady(env, deps, b, seller, c, info, matchArgs)
    ensures IsOrder(c)
    ensures var built := Build(MatchOrder(seller, info, matchArgs), env, deps);
            var channel := FindAt(env.live, matchArgs.channelOutpoint).value;
            && built.Ok?
            && var tx := Balanced(built.value, b);
               && Sole(tx, c)
               && FindOpticrum(tx.outputs, c.cell.lock)
                  == Some(MatchOutput(c, info, matchArgs, c.cell.capacity + ORDER_TO_MATCH_CAPACITY_RESERVE))
               && (Verify(tx, c.cell.lock).Ok? <==>
                   && (info.xudt.None? ==> info.orderData.xudtAmount == 0)
                   && MeetsDemand(channel, c) && channel.block > c.block)
  {
    hide ParseOrderCell, ParseXudt, Build, MatchOrder, FindAt, FindLocked, FindOpticrum, HasInputLock, Verify,
      MeetsDemand, ParseBranch, MatchOutput;
    OrderParserAgrees(c);
    MatchBuilds(env, deps, seller, c, info, matchArgs);
    var built := Build(MatchOrder(seller, info, matchArgs), env, deps).value;
    var tx, channel := Balanced(built, b), FindAt(env.live, matchArgs.channelOutpoint).value;
    var out := built.outputs[0];
    var at := FindLockedFacts(env.live, seller.lock);
    MatchOutputLock(c, info, matchArgs);
    BuiltScope(built, b, c, FindLocked(env.live, seller.lock).value, out);
    var i := FindAtFacts(env.live, matchArgs.channelOutpoint);
    FirstAt(deps + [env.contractDep], channel, b.deps);
    assert tx.cellDeps == deps + [env.contractDep] + [channel] + b.deps;
    MatchVerdict(c, info, matchArgs, tx, channel);
  }

  lemma MatchOutputLock(c: LiveCell, info: OrderInfo, matchArgs: MatchArgs)
    requires c.cell.capacity + ORDER_TO_MATCH_CAPACITY_RESERVE < U64_SPAN
    ensures var lock := MatchOutput(c, info, matchArgs, c.cell.capacity + ORDER_TO_MATCH_CAPACITY_RESERVE).lock;
            lock.codeHash == c.cell.lock.codeHash && lock.hashType.Type?
  {
  }

  lemma MatchVerdict(c: LiveCell, info: OrderInfo, matchArgs: MatchArgs, tx: Transaction, channel: LiveCell)
    requires c.cell.Stored() && ParseOrderCell(c) == Some(info) && IsOrder(c)
    requires matchArgs.orderArgs == info.orderArgs && c.cell.capacity + ORDER_TO_MATCH_CAPACITY_RESERVE < U64_SPAN
    requires Sole(tx, c) && HasInputLock(tx, matchArgs.sellerLockHash)
    requires tx.headerDeps == [channel.block, c.block] && FindAt(tx.cellDeps, matchArgs.channelOutpoint) == Some(channel)
    requires FindOpticrum(tx.outputs, c.cell.lock)
          == Some(MatchOutput(c, info, matchArgs, c.cell.capacity + ORDER_TO_MATCH_CAPACITY_RESERVE))
    ensures Verify(tx, c.cell.lock).Ok? <==>
            && (info.xudt.None? ==> info.orderData.xudtAmount == 0)
            && MeetsDemand(channel, c) && channel.block > c.block
  {
    hide ParseOrderCell, ParseXudt, FindAt, FindOpticrum, HasInputLock, Root, VerifyOrderMatch, OrderChannel, MeetsDemand,
      StateOf;
    OrderParserAgrees(c);
    ReserveIsGrowth(c, info, matchArgs);
    var out := MatchOutput(c, info, matchArgs, c.cell.capacity + ORDER_TO_MATCH_CAPACITY_RESERVE);
    var md := MatchData.New(if info.xudt.Some? then info.xudt.value.amount else 0, info.orderData.shannonsPerBlock);
    RebuiltMatch(out, matchArgs, md);
    var m := LiveCell(c.outPoint, out, c.lockHash, c.block);
    SoleIsHead(tx, c);
    OrderTokens(c, info, out, md.xudtAmount);
    OrderRoute(tx, c, m);
    StateFields(m);
    OrderMatchExact(StateOf(c.cell).value, StateOf(m.cell).value, tx, c);
    OrderChannelExact(c, matchArgs.channelOutpoint, tx);
  }

  lemma {:induction false} FirstAt(before: seq<LiveCell>, found: LiveCell, after: seq<LiveCell>)
    requires forall d | d in before :: d.outPoint == found.outPoint ==> d == found
    ensures FindAt(before + [found] + after, found.outPoint) == Some(found)
  {
    var all := before + [found] + after;
    if before != [] {
      FirstAt(before[1..], found, after);
      assert all[1..] == before[1..] + [found] + after;
      assert all[0] == before[0] && before[0] in before;
    } else {
      assert all[0] == found;
    }
  }

  lemma OrderTokens(c: LiveCell, info: OrderInfo, out: Cell, amount: u128)
    requires c.cell.Stored() && ParseOrderCell(c) == Some(info) && out.typeScript == c.cell.typeScript
    requires info.xudt.Some? ==> amount == info.xudt.value.amount
    ensures TokenOf(out, amount) == ParseXudt(c.cell) == info.xudt
    ensures info.xudt.Some? ==> info.xudt.value.amount == info.orderData.xudtAmount
  {
    OrderParserAgrees(c);
  }

  /** The order cell that `create_order` puts on the chain. */
  function CreatedOrder(codeHash: Bytes32, orderArgs: OrderArgs, orderData: OrderData, rentCapacity: u64,
                        typeScript: Option<Script>): Exec<Cell>
  {
    var stored := OrderData(if typeScript.Some? then orderData.xudtAmount else 0,
                            orderData.channelCapacity, orderData.shannonsPerBlock);
    var bare := Cell(0, Script(codeHash, Type, orderArgs.ToBytes()), typeScript, stored.ToBytes());
    var capacity := bare.Occupied() + (if typeScript.Some? then 0 else rentCapacity);
    if capacity < U64_SPAN then Ok(bare.(capacity := capacity)) else Err(BuildFailed)
  }

  lemma CreateBuilds(env: Env, deps: seq<LiveCell>, buyer: Address, orderArgs: OrderArgs, orderData: OrderData,
                     rentCapacity: u64, typeScript: Option<Script>, fiberAddress: Option<string>)
    requires FindLocked(env.live, buyer.lock).Some?
    ensures var created := CreatedOrder(env.codeHash, orderArgs, orderData, rentCapacity, typeScript);
            var built := Build(CreateOrderOps(buyer, orderArgs, orderData, rentCapacity, typeScript, fiberAddress), env, deps);
            created.Ok? ==>
              built == Ok(Transaction(deps + (if typeScript.Some? then [env.contractDep, env.xudtDep] else [env.contractDep]),
                                      [], [FindLocked(env.live, buyer.lock).value], [created.value]))
  {
    var created := CreatedOrder(env.codeHash, orderArgs, orderData, rentCapacity, typeScript);
    if created.Ok? {
      var ops := CreateOrderOps(buyer, orderArgs, orderData, rentCapacity, typeScript, fiberAddress);
      hide FindLocked, OrderArgs.ToBytes, OrderData.ToBytes;
      var u, out := FindLocked(env.live, buyer.lock).value, created.value;
      assert [] + [u] == [u] && [] + [out] == [out];
      var d := deps + [env.contractDep];
      assert d + [env.xudtDep] == deps + [env.contractDep, env.xudtDep];
      var trace := [Transaction(deps, [], [], []), Transaction(d, [], [], []), Transaction(d, [], [u], [])];
      if typeScript.Some? {
        d := d + [env.xudtDep];
        trace := trace + [Transaction(d, [], [u], [])];
      }
      trace := trace + [Transaction(d, [], [u], [out])];
      var built := Transaction(d, [], [u], [out]);
      var metadata := if fiberAddress.Some? then [SetOutputWitness(0, fiberAddress.value)] else [];
      var core := CreateOrderOps(buyer, orderArgs, orderData, rentCapacity, typeScript, None);
      assert core + [] == core && ops == core + metadata;
      RunTrace(core, env, trace);
      assert trace[|core|] == built;
      hide Apply, CreateOrderOps;
      RunAppend(core, metadata, env, trace[0]);
      WitnessIsMetadata(fiberAddress, env, built);
    }
  }

  lemma WitnessIsMetadata(fiberAddress: Option<string>, env: Env, tx: Transaction)
    ensures RunOps(if fiberAddress.Some? then [SetOutputWitness(0, fiberAddress.value)] else [], env, tx) == Ok(tx)
  {
    if fiberAddress.Some? {
      RunOne(SetOutputWitness(0, fiberAddress.value), env, tx);
    }
  }

  /** A created order reads back as created: tokens zeroed without a token type, and
      the rent capacity as its pool. */
  lemma CreatedOrderReads(codeHash: Bytes32, orderArgs: OrderArgs, orderData: OrderData, rentCapacity: u64,
                          typeScript: Option<Script>, c: LiveCell)
    requires CreatedOrder(codeHash, orderArgs, orderData, rentCapacity, typeScript) == Ok(c.cell)
    ensures c.cell.Stored()
    ensures var amount := if typeScript.Some? then orderData.xudtAmount else 0;
            ParseOrderCell(c) ==
            Some(OrderInfo(orderArgs,
                           OrderData(amount, orderData.channelCapacity, orderData.shannonsPerBlock),
                           if typeScript.Some? then Some(Xudt(amount, typeScript.value)) else None,
                           if typeScript.Some? then 0 else rentCapacity, c.outPoint, None))
  {
    hide ToLe, ReadU64, ReadU128, OrderArgs.FromSlice, OrderArgs.ToBytes, OrderData.FromSlice, OrderData.ToBytes;
    OrderArgsRoundTrip(orderArgs);
    OrderDataRoundTrip(OrderData(if typeScript.Some? then orderData.xudtAmount else 0,
                                 orderData.channelCapacity, orderData.shannonsPerBlock));
  }

  /** End to end: an order made by `create_order`, read by the scanner and matched by
      `match_order` is accepted for every channel that meets its demand and is younger,
      and for no other. */
  lemma CreateThenMatch(env: Env, deps: seq<LiveCell>, b: Balance, seller: Address, c: LiveCell, info: OrderInfo,
                        matchArgs: MatchArgs, orderData: OrderData, rentCapacity: u64)
    requires CreatedOrder(env.codeHash, info.orderArgs, orderData, rentCapacity, c.cell.typeScript) == Ok(c.cell)
    requires MatchReady(env, deps, b, seller, c, info, matchArgs)
    ensures var built := Build(MatchOrder(seller, info, matchArgs), env, deps);
            var channel := FindAt(env.live, matchArgs.channelOutpoint).value;
            built.Ok? && (Verify(Balanced(built.value, b), c.cell.lock).Ok? <==>
                          && channel.block > c.block
                          && channel.cell.lock.hashType.Type? && RecognisedFunding(channel.cell.lock.codeHash)
                          && (c.cell.typeScript.Some? ==> channel.cell.typeScript == c.cell.typeScript)
                          && (if c.cell.typeScript.Some? && orderData.xudtAmount > 0
                              then HoldsTokens(channel, orderData.xudtAmount)
                              else channel.cell.capacity >= orderData.channelCapacity))
  {
    hide Verify, Build, MatchOrder, FindAt, FindLocked, FindOpticrum, RecognisedFunding, HoldsTokens;
    CreatedOrderReads(env.codeHash, info.orderArgs, orderData, rentCapacity, c.cell.typeScript, c);
    MatchOrderAccepted(env, deps, b, seller, c, info, matchArgs);
    OrderParserAgrees(c);
  }
}
