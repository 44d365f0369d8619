// Transaction builders.
//
// An instruction is a list of operations. The effect of an operation on the
// transaction under construction follows its documentation: an operation without
// an index acts on the cell added last, an output made from an input inherits the
// lock, type and data it is not given, and the capacity of a fresh output is
// counted on top of what its bytes occupy.
module Calculator {
  import opened Machine
  import opened LittleEndian
  import opened Protocol
  import opened Cells
  import opened Types

  /** What a match cell occupies beyond an order cell. */
  const ORDER_TO_MATCH_CAPACITY_RESERVE: u64 :=
    (MATCH_ARGS_LEN - ORDER_ARGS_LEN + MATCH_DATA_LEN - ORDER_DATA_LEN) * CKB_DECIMAL

  datatype Address = Address(lock: Script, lockHash: Bytes32)

  /** A lock of an output: an Opticrum lock with given args, resolved against the
      deployed contract, or a party's own lock. */
  datatype LockRef = Opticrum(args: Bytes) | Own(script: Script)

  datatype CapacityAdjustment = Keep | Add(added: u64) | Subtract(removed: u64)

  datatype Operation =
    | AddOpticrumContractCelldep
    | AddXudtCelldep
    | AddCellDep(dep: OutPoint)
    | AddHeaderDepByBlockNumber(blockNumber: u64)
    | AddHeaderDepByLastCellDep
    | AddHeaderDepByLastInput
    | AddInputCellByAddress(address: Address)
    | AddInputCellByOutPoint(outPoint: OutPoint)
    | AddOutputCell(lock: LockRef, typeScript: Option<Script>, data: Bytes, extraCapacity: u64)
    | AddOutputCellByInputIndex(
        index: Option<nat>, newLock: Option<LockRef>, newData: Option<Bytes>, adjust: CapacityAdjustment)
    | SetOutputWitness(outputIndex: nat, text: string)

  type Instruction = seq<Operation>

  // ---------------------------------------------------------------------------
  // Builders
  // ---------------------------------------------------------------------------

  /** Tokens are recorded only on orders with a token type. */
  function StoredOrderData(orderData: OrderData, typeScript: Option<Script>): OrderData {
    OrderData(if typeScript.Some? then orderData.xudtAmount else 0, orderData.channelCapacity, orderData.shannonsPerBlock)
  }

  function CreateOrderOps(buyer: Address, orderArgs: OrderArgs, orderData: OrderData, rentCapacity: u64,
                          typeScript: Option<Script>, fiberAddress: Option<string>): Instruction
  {
    [AddOpticrumContractCelldep, AddInputCellByAddress(buyer)]
    + (if typeScript.Some? then [AddXudtCelldep] else [])
    + [AddOutputCell(Opticrum(orderArgs.ToBytes()), typeScript, StoredOrderData(orderData, typeScript).ToBytes(),
                     if typeScript.Some? then 0 else rentCapacity)]
    + (if fiberAddress.Some? then [SetOutputWitness(0, fiberAddress.value)] else [])
  }

  method CreateOrder(buyer: Address, orderArgs: OrderArgs, orderData: OrderData, rentCapacity: u64,
                     typeScript: Option<Script>, fiberAddress: Option<string>) returns (operations: Instruction)
    ensures operations == CreateOrderOps(buyer, orderArgs, orderData, rentCapacity, typeScript, fiberAddress)
    ensures fiberAddress.Some? ==> operations[|operations| - 1] == SetOutputWitness(0, fiberAddress.value)
    ensures var output := operations[if typeScript.Some? then 3 else 2];
            && output.AddOutputCell?
            && output.lock == Opticrum(orderArgs.ToBytes()) && output.typeScript == typeScript
            && output.extraCapacity == (if typeScript.Some? then 0 else rentCapacity)
            && OrderData.FromSlice(output.data)
               == Some(OrderData(if typeScript.Some? then orderData.xudtAmount else 0,
                                 orderData.channelCapacity, orderData.shannonsPerBlock))
  {
    OrderDataRoundTrip(StoredOrderData(orderData, typeScript));
    hide OrderArgs.ToBytes, OrderData.ToBytes, OrderData.FromSlice;
    var args := orderArgs.ToBytes();
    var stored := OrderData(if typeScript.Some? then orderData.xudtAmount else 0, orderData.channelCapacity,
                            orderData.shannonsPerBlock);
    operations := [AddOpticrumContractCelldep, AddInputCellByAddress(buyer)];
    if typeScript.Some? {
      operations := operations + [AddXudtCelldep];
      operations := operations + [AddOutputCell(Opticrum(args), typeScript, stored.ToBytes(), 0)];
    } else {
      operations := operations + [AddOutputCell(Opticrum(args), None, stored.ToBytes(), rentCapacity)];
    }
    if fiberAddress.Some? {
      operations := operations + [SetOutputWitness(0, fiberAddress.value)];
    }
  }

  function CancelOrderOps(buyer: Address, info: OrderInfo): Instruction {
    [AddOpticrumContractCelldep, AddInputCellByOutPoint(info.orderOutpoint), AddInputCellByAddress(buyer)]
    + match info.xudt
      case Some(x) => [AddXudtCelldep, AddOutputCell(Own(buyer.lock), Some(x.typeScript), ToLe(x.amount, 16), 0)]
      case None => []
  }

  method CancelOrder(buyer: Address, info: OrderInfo) returns (operations: Instruction)
    ensures operations == CancelOrderOps(buyer, info)
  {
    operations := [AddOpticrumContractCelldep, AddInputCellByOutPoint(info.orderOutpoint), AddInputCellByAddress(buyer)];
    if info.xudt.Some? {
      var x := info.xudt.value;
      operations := operations + [AddXudtCelldep];
      operations := operations + [AddOutputCell(Own(buyer.lock), Some(x.typeScript), ToLe(x.amount, 16), 0)];
    }
  }

  function MatchInputs(seller: Address, info: OrderInfo, channel: OutPoint): Instruction {
    [AddOpticrumContractCelldep,
     AddCellDep(channel),
     AddHeaderDepByLastCellDep,
     AddInputCellByOutPoint(info.orderOutpoint),
     AddHeaderDepByLastInput,
     AddInputCellByAddress(seller)]
  }

  function MatchOrder(seller: Address, info: OrderInfo, matchArgs: MatchArgs): Instruction {
    var xudtAmount := if info.xudt.Some? then info.xudt.value.amount else 0;
    var matchData := MatchData.New(xudtAmount, info.orderData.shannonsPerBlock);
    MatchInputs(seller, info, matchArgs.channelOutpoint)
    + [AddOutputCellByInputIndex(Some(0), Some(Opticrum(matchArgs.ToBytes())), Some(matchData.ToBytes()),
                                 Add(ORDER_TO_MATCH_CAPACITY_RESERVE))]
  }

  function DestroyInputs(seller: Address, info: MatchInfo, tipBlock: u64): Instruction {
    [AddOpticrumContractCelldep,
     AddHeaderDepByBlockNumber(tipBlock),
     AddInputCellByOutPoint(info.matchOutpoint),
     AddInputCellByAddress(seller)]
    + (if info.matchData.lastExtractionBlock == 0 then [AddHeaderDepByBlockNumber(info.matchCurrentBlock)] else [])
  }

  function DestroyMatchOps(seller: Address, info: MatchInfo, tipBlock: u64): Instruction {
    DestroyInputs(seller, info, tipBlock)
    + match info.xudt
      case Some(x) =>
        [AddXudtCelldep, AddOutputCellByInputIndex(Some(0), Some(Own(seller.lock)), Some(ToLe(x.amount, 16)), Keep)]
      case None => [AddOutputCellByInputIndex(Some(0), Some(Own(seller.lock)), Some([]), Keep)]
  }

  method DestroyMatch(seller: Address, info: MatchInfo, tipBlock: u64) returns (operations: Instruction)
    ensures operations == DestroyMatchOps(seller, info, tipBlock)
  {
    operations := [AddOpticrumContractCelldep, AddHeaderDepByBlockNumber(tipBlock),
                   AddInputCellByOutPoint(info.matchOutpoint), AddInputCellByAddress(seller)];
    if info.matchData.lastExtractionBlock == 0 {
      operations := operations + [AddHeaderDepByBlockNumber(info.matchCurrentBlock)];
    }
    if info.xudt.Some? {
      operations := operations + [AddXudtCelldep];
      operations := operations
        + [AddOutputCellByInputIndex(Some(0), Some(Own(seller.lock)), Some(ToLe(info.xudt.value.amount, 16)), Keep)];
    } else {
      operations := operations + [AddOutputCellByInputIndex(Some(0), Some(Own(seller.lock)), Some([]), Keep)];
    }
  }

  /** The match data an extraction of `rent` at `tipBlock` leaves behind. */
  function ExtractedData(info: MatchInfo, rent: u64, tipBlock: u64): MatchData {
    MatchData(if info.xudt.Some? then SatSub(info.xudt.value.amount, rent) else 0, info.matchData.shannonsPerBlock, tipBlock)
  }

  function ExtractInputs(seller: Address, info: MatchInfo, tipBlock: u64): Instruction {
    [AddOpticrumContractCelldep,
     AddCellDep(info.matchArgs.channelOutpoint),
     AddHeaderDepByBlockNumber(tipBlock),
     AddInputCellByAddress(seller),
     AddInputCellByOutPoint(info.matchOutpoint)]
    + (if info.matchData.lastExtractionBlock == 0 then [AddHeaderDepByLastInput] else [])
  }

  /** Computing the rent traps on overflow; an exhausted match is destroyed instead. */
  function ExtractRentOps(seller: Address, info: MatchInfo, tipBlock: u64): Exec<Instruction> {
    var exhausted :- info.IsExhausted(tipBlock);
    if exhausted then Ok(DestroyMatchOps(seller, info, tipBlock)) else
      var rent :- info.ExtractionAmount(tipBlock);
      Ok(ExtractInputs(seller, info, tipBlock)
         + [AddOutputCellByInputIndex(None, None, Some(ExtractedData(info, rent, tipBlock).ToBytes()),
                                      if info.xudt.Some? then Keep else Subtract(rent))])
  }

  method ExtractRent(seller: Address, info: MatchInfo, tipBlock: u64) returns (r: Exec<Instruction>)
    ensures r == ExtractRentOps(seller, info, tipBlock)
  {
    var exhausted :- info.IsExhausted(tipBlock);
    if exhausted {
      var destroy := DestroyMatch(seller, info, tipBlock);
      return Ok(destroy);
    }
    var operations := [AddOpticrumContractCelldep, AddCellDep(info.matchArgs.channelOutpoint),
                       AddHeaderDepByBlockNumber(tipBlock), AddInputCellByAddress(seller),
                       AddInputCellByOutPoint(info.matchOutpoint)];
    if info.matchData.lastExtractionBlock == 0 {
      operations := operations + [AddHeaderDepByLastInput];
    }
    assert operations == ExtractInputs(seller, info, tipBlock);
    var rentExtraction :- info.ExtractionAmount(tipBlock);
    var newMatchData := info.matchData;
    newMatchData := newMatchData.(lastExtractionBlock := tipBlock);
    if info.xudt.Some? {
      newMatchData := newMatchData.(xudtAmount := SatSub(info.xudt.value.amount, rentExtraction));
      operations := operations + [AddOutputCellByInputIndex(None, None, Some(newMatchData.ToBytes()), Keep)];
    } else {
      newMatchData := newMatchData.(xudtAmount := 0);
      operations := operations
        + [AddOutputCellByInputIndex(None, None, Some(newMatchData.ToBytes()), Subtract(rentExtraction))];
    }
    assert newMatchData == ExtractedData(info, rentExtraction, tipBlock);
    return Ok(operations);
  }

  /** Negating the least signed integer overflows. */
  function AdjustmentBy(delta: i64): Exec<CapacityAdjustment> {
    var magnitude: int := if delta >= 0 then delta else -(delta as int);
    if delta >= 0 then Ok(Add(magnitude))
    else if magnitude < 0x8000_0000_0000_0000 then Ok(Subtract(magnitude))
    else Trap
  }

  function UpdateMatchBuyerOps(buyer: Address, info: MatchInfo, newXudtAmount: u128, delta: i64): Exec<Instruction> {
    var adjust :- AdjustmentBy(delta);
    Ok([AddOpticrumContractCelldep,
        AddInputCellByOutPoint(info.matchOutpoint),
        AddInputCellByAddress(buyer),
        AddOutputCellByInputIndex(Some(0), None, Some(info.matchData.(xudtAmount := newXudtAmount).ToBytes()), adjust)])
  }

  /** `op` rewrites the cell spent first: match data that parse to the old rate and clock
      and the new token amount, and capacity moved by exactly `delta`. */
  predicate Rewrites(op: Operation, info: MatchInfo, newXudtAmount: u128, delta: i64) {
    && op.AddOutputCellByInputIndex? && op.index == Some(0) && op.newLock == None && op.newData.Some?
    && MatchData.FromSlice(op.newData.value)
       == Some(MatchData(newXudtAmount, info.matchData.shannonsPerBlock, info.matchData.lastExtractionBlock))
    && forall capacity: u64 ::
         Adjusted(capacity, op.adjust)
         == if 0 <= capacity + delta < U64_SPAN then Ok(capacity + delta) else Err(BuildFailed)
  }

  method UpdateMatchBuyer(buyer: Address, info: MatchInfo, newXudtAmount: u128, delta: i64) returns (r: Exec<Instruction>)
    ensures r == UpdateMatchBuyerOps(buyer, info, newXudtAmount, delta)
    ensures r.Trap? <==> delta == -0x8000_0000_0000_0000
    ensures !r.Trap? ==> r.Ok? && r.value != [] && Rewrites(r.value[|r.value| - 1], info, newXudtAmount, delta)
  {
    var newMatchData := info.matchData;
    newMatchData := newMatchData.(xudtAmount := newXudtAmount);
    var adjust :- AdjustmentBy(delta);
    MatchDataRoundTrip(newMatchData, []);
    assert newMatchData.ToBytes() + [] == newMatchData.ToBytes();
    return Ok([AddOpticrumContractCelldep, AddInputCellByOutPoint(info.matchOutpoint), AddInputCellByAddress(buyer),
               AddOutputCellByInputIndex(Some(0), None, Some(newMatchData.ToBytes()), adjust)]);
  }

  // ---------------------------------------------------------------------------
  // Running an instruction
  // ---------------------------------------------------------------------------

  /** The chain as the tools see it: the deployed contract, live cells and height. */
  datatype Env = Env(codeHash: Bytes32, contractDep: LiveCell, xudtDep: LiveCell, live: seq<LiveCell>, height: u64)

  function ResolveLock(lock: LockRef, env: Env): Script {
    match lock
    case Opticrum(args) => Script(env.codeHash, Type, args)
    case Own(script) => script
  }

  function Adjusted(capacity: u64, adjust: CapacityAdjustment): Exec<u64> {
    match adjust
    case Keep => Ok(capacity)
    case Add(n) => if capacity + n < U64_SPAN then Ok(capacity + n) else Err(BuildFailed)
    case Subtract(n) => if n <= capacity then Ok(capacity - n) else Err(BuildFailed)
  }

  function Apply(op: Operation, env: Env, tx: Transaction): Exec<Transaction> {
    match op
    case AddOpticrumContractCelldep => Ok(tx.(cellDeps := tx.cellDeps + [env.contractDep]))
    case AddXudtCelldep => Ok(tx.(cellDeps := tx.cellDeps + [env.xudtDep]))
    case AddCellDep(p) =>
      if FindAt(env.live, p).None? then Err(BuildFailed)
      else Ok(tx.(cellDeps := tx.cellDeps + [FindAt(env.live, p).value]))
    case AddHeaderDepByBlockNumber(n) =>
      if n <= env.height then Ok(tx.(headerDeps := tx.headerDeps + [n])) else Err(BuildFailed)
    case AddHeaderDepByLastCellDep =>
      if tx.cellDeps == [] then Err(BuildFailed)
      else Ok(tx.(headerDeps := tx.headerDeps + [tx.cellDeps[|tx.cellDeps| - 1].block]))
    case AddHeaderDepByLastInput =>
      if tx.inputs == [] then Err(BuildFailed)
      else Ok(tx.(headerDeps := tx.headerDeps + [tx.inputs[|tx.inputs| - 1].block]))
    case AddInputCellByAddress(a) =>
      if FindLocked(env.live, a.lock).None? then Err(BuildFailed)
      else Ok(tx.(inputs := tx.inputs + [FindLocked(env.live, a.lock).value]))
    case AddInputCellByOutPoint(p) =>
      if FindAt(env.live, p).None? then Err(BuildFailed)
      else Ok(tx.(inputs := tx.inputs + [FindAt(env.live, p).value]))
    case AddOutputCell(lock, typeScript, data, extra) =>
      var bare := Cell(0, ResolveLock(lock, env), typeScript, data);
      if bare.Occupied() + extra >= U64_SPAN then Err(BuildFailed)
      else Ok(tx.(outputs := tx.outputs + [bare.(capacity := bare.Occupied() + extra)]))
    case AddOutputCellByInputIndex(index, newLock, newData, adjust) =>
      var i := if index.Some? then index.value else |tx.inputs| - 1;
      if i < 0 || i >= |tx.inputs| then Err(BuildFailed) else
        var cell := tx.inputs[i].cell;
        var capacity :- Adjusted(cell.capacity, adjust);
        Ok(tx.(outputs := tx.outputs
                          + [Cell(capacity,
                                  if newLock.Some? then ResolveLock(newLock.value, env) else cell.lock,
                                  cell.typeScript,
                                  if newData.Some? then newData.value else cell.data)]))
    case SetOutputWitness(_, _) => Ok(tx)
  }

  function RunOps(ops: Instruction, env: Env, tx: Transaction): Exec<Transaction> {
    if ops == [] then Ok(tx) else
      var next :- Apply(ops[0], env, tx);
      RunOps(ops[1..], env, next)
  }

  /** Other instructions of the same transaction add cell deps before this one. */
  function Build(ops: Instruction, env: Env, deps: seq<LiveCell>): Exec<Transaction> {
    RunOps(ops, env, Transaction(deps, [], [], []))
  }

  /** What balancing and signing add at the end. */
  datatype Balance = Balance(deps: seq<LiveCell>, inputs: seq<LiveCell>, outputs: seq<Cell>)

  function Balanced(tx: Transaction, b: Balance): Transaction {
    Transaction(tx.cellDeps + b.deps, tx.headerDeps, tx.inputs + b.inputs, tx.outputs + b.outputs)
  }

  lemma {:induction false} RunAppend(a: Instruction, b: Instruction, env: Env, tx: Transaction)
    ensures RunOps(a + b, env, tx) ==
            match RunOps(a, env, tx)
            case Ok(mid) => RunOps(b, env, mid)
            case Err(e) => Err(e)
            case Trap => Trap
  {
    if a == [] {
      assert a + b == b;
    } else {
      assert (a + b)[1..] == a[1..] + b;
      if Apply(a[0], env, tx).Ok? {
        RunAppend(a[1..], b, env, Apply(a[0], env, tx).value);
      }
    }
  }

  lemma RunOne(op: Operation, env: Env, tx: Transaction)
    ensures RunOps([op], env, tx) == Apply(op, env, tx)
  {
    if Apply(op, env, tx).Ok? {
      assert RunOps([], env, Apply(op, env, tx).value) == Apply(op, env, tx);
      assert [op][1..] == [];
    }
  }
}
