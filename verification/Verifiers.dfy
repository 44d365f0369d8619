// The verification tree: Root and the four branch verifiers.
module Verifiers {
  import opened Machine
  import opened LittleEndian
  import opened Protocol
  import opened Cells
  import opened State

  const FIBER_FUNDING_TYPE_ID_TESTNET: Bytes32 := [
    0x6c, 0x67, 0x88, 0x7f, 0xe2, 0x01, 0xee, 0x0c, 0x78, 0x53, 0xf1, 0x68, 0x2c, 0x0b, 0x77, 0xc0,
    0xe6, 0x21, 0x40, 0x44, 0xc1, 0x56, 0xc7, 0x55, 0x82, 0x69, 0x39, 0x0a, 0x8a, 0xfa, 0x6d, 0x7c]
  const FIBER_FUNDING_TYPE_ID_MAINNET: Bytes32 := [
    0xe4, 0x5b, 0x1f, 0x8f, 0x21, 0xbf, 0xf2, 0x31, 0x37, 0x03, 0x5a, 0x3a, 0xb7, 0x51, 0xd7, 0x5b,
    0x36, 0xa9, 0x81, 0xde, 0xec, 0x3e, 0x78, 0x20, 0x19, 0x4b, 0x9c, 0x04, 0x29, 0x67, 0xf4, 0xf1]
  const FIBER_FUNDING_TYPE_ID_MOCK: Bytes32 := [
    0x77, 0xc9, 0x16, 0x3a, 0xdd, 0xbf, 0x87, 0xc8, 0x05, 0xbe, 0x3b, 0x6c, 0x85, 0x69, 0xb8, 0xe0,
    0x15, 0xa4, 0xca, 0x0e, 0xf3, 0xc6, 0x89, 0x15, 0x02, 0x34, 0xf0, 0xc8, 0x02, 0xa7, 0x69, 0x00]

  predicate IsFiberFundingContract(hash: Bytes32) {
    || hash == FIBER_FUNDING_TYPE_ID_TESTNET
    || hash == FIBER_FUNDING_TYPE_ID_MAINNET
    || hash == FIBER_FUNDING_TYPE_ID_MOCK
  }

  predicate IsFunding(cell: Cell) {
    IsFiberFundingContract(cell.lock.codeHash) && cell.lock.hashType.Type?
  }

  /** The cell dep at the channel outpoint, if it passes the checks asked for. */
  function FindChannel(tx: Transaction, channel: OutPoint, minCapacity: Option<u64>,
                       minXudtAmount: Option<u128>, xudtType: Option<Option<Script>>): Option<LiveCell>
  {
    match FindAt(tx.cellDeps, channel)
    case None => None
    case Some(dep) =>
      if !IsFunding(dep.cell) then None
      else if xudtType.Some? && dep.cell.typeScript != xudtType.value then None
      else if minXudtAmount.Some? && |dep.cell.data| < XUDT_AMOUNT_LEN then None
      else if minXudtAmount.Some? && ReadU128(dep.cell.data[..XUDT_AMOUNT_LEN]) < minXudtAmount.value then None
      else if minCapacity.Some? && dep.cell.capacity < minCapacity.value then None
      else Some(dep)
  }

  predicate ChannelExists(tx: Transaction, channel: OutPoint) {
    exists dep | dep in tx.cellDeps :: channel.Matches(dep.outPoint)
  }

  // ---------------------------------------------------------------------------
  // Context accessors
  // ---------------------------------------------------------------------------

  function ExpectOrder(st: OpticrumState): Exec<(OrderArgs, OrderData)> {
    if st.branch.Order? then Ok((st.branch.orderArgs, st.branch.orderData)) else Err(UnexpectedBranch)
  }

  function ExpectMatch(st: OpticrumState): Exec<(MatchArgs, MatchData)> {
    if st.branch.Match? then Ok((st.branch.matchArgs, st.branch.matchData)) else Err(UnexpectedBranch)
  }

  function ExpectNewMatch(st: Option<OpticrumState>): Exec<(MatchArgs, MatchData)> {
    if st.None? then Err(BadMatchUpdate) else ExpectMatch(st.value)
  }

  // ---------------------------------------------------------------------------
  // Branch verifiers
  // ---------------------------------------------------------------------------

  function VerifyOrderCancel(before: OpticrumState, tx: Transaction): Exec<()> {
    var (orderArgs, _) :- ExpectOrder(before);
    Require(HasInputLock(tx, orderArgs.buyerLockHash), BuyerAuthMissing)
  }

  /** The channel lookup of an order match: token orders check the token amount,
      the others the capacity. */
  function OrderChannel(orderData: OrderData, xudt: Option<Xudt>, channel: OutPoint, tx: Transaction): Option<LiveCell> {
    FindChannel(tx, channel,
                if orderData.xudtAmount > 0 then None else Some(orderData.channelCapacity),
                if orderData.xudtAmount > 0 then Some(orderData.xudtAmount) else None,
                if xudt.Some? then Some(Some(xudt.value.typeScript)) else None)
  }

  function VerifyOrderMatch(before: OpticrumState, after: Option<OpticrumState>, tx: Transaction, c: LiveCell): Exec<()> {
    var (_, orderData) :- ExpectOrder(before);
    var (matchArgs, matchData) :- ExpectNewMatch(after);
    var channel :- OrElse(OrderChannel(orderData, before.xudt, matchArgs.channelOutpoint, tx), ChannelCellNotInDep);
    var _ :- Require(HasInputLock(tx, matchArgs.sellerLockHash), SellerAuthMissing);
    var _ :- Require(orderData.shannonsPerBlock == matchData.shannonsPerBlock
                     && matchData.lastExtractionBlock == 0, MatchDataNotSet);
    var _ :- Require(before.unoccupiedCapacity == after.value.unoccupiedCapacity, ChannelCapacityMismatch);
    var _ :- Require(orderData.xudtAmount == matchData.xudtAmount, BadXudtAmount);
    var orderBlock :- HeaderOf(tx, c);
    var channelBlock :- HeaderOf(tx, channel);
    Require(channelBlock > orderBlock, ChannelCreatedBeforeOrder)
  }

  function VerifyMatchUpdate(before: OpticrumState, after: Option<OpticrumState>, tx: Transaction, c: LiveCell): Exec<()> {
    var (matchArgs, matchData) :- ExpectMatch(before);
    var (newMatchArgs, newMatchData) :- ExpectNewMatch(after);
    var _ :- Require(matchArgs == newMatchArgs, BadMatchUpdate);
    var _ :- Require(matchData.shannonsPerBlock == newMatchData.shannonsPerBlock, RentPerBlockMismatch);
    var hasSeller := HasInputLock(tx, matchArgs.sellerLockHash);
    var hasBuyer := HasInputLock(tx, matchArgs.orderArgs.buyerLockHash);
    if hasSeller && !hasBuyer then
      var _ :- Require(ChannelExists(tx, matchArgs.channelOutpoint), ChannelCellNotInDep);
      var exhausted :- IsExhausted(before, tx, c);
      var _ :- Require(!exhausted, MatchNotExhausted);
      var rent :- LiquidityRent(before, tx, c);
      var extracted := if before.xudt.Some?
                       then SatSub(before.xudt.value.amount, newMatchData.xudtAmount)
                       else SatSub(before.unoccupiedCapacity, after.value.unoccupiedCapacity);
      var _ :- Require(extracted == rent, BadExtractionAmount);
      var tipBlock :- HeaderDepNumber(tx, 0);
      Require(newMatchData.lastExtractionBlock == tipBlock, BadMatchDataUpdate)
    else if !hasSeller && hasBuyer then
      var _ :- Require(newMatchData.lastExtractionBlock == matchData.lastExtractionBlock, BadMatchDataUpdate);
      Require(before.xudt.Some? && after.value.xudt.Some?
              ==> before.xudt.value.typeScript == after.value.xudt.value.typeScript, BadMatchUpdate)
    else Err(AuthorizationMissing)
  }

  function VerifyMatchDestroy(before: OpticrumState, tx: Transaction, c: LiveCell): Exec<()> {
    var (matchArgs, _) :- ExpectMatch(before);
    var _ :- Require(HasInputLock(tx, matchArgs.sellerLockHash), SellerAuthMissing);
    var exhausted :- IsExhausted(before, tx, c);
    Require(exhausted, MatchNotExhausted)
  }

  // ---------------------------------------------------------------------------
  // The tree as a function of the transaction and the first cell of the group
  // ---------------------------------------------------------------------------

  datatype Routed = Routed(before: OpticrumState, after: Option<OpticrumState>, pattern: Pattern)

  function NewState(tx: Transaction, self: Script): Exec<Option<OpticrumState>> {
    match FindOpticrum(tx.outputs, self)
    case None => Ok(None)
    case Some(o) =>
      var st :- StateOf(o);
      Ok(Some(st))
  }

  function Root(tx: Transaction, c: LiveCell): Exec<Routed> {
    var before :- StateOf(c.cell);
    var after :- NewState(tx, c.cell.lock);
    var pattern := Compare(before, after);
    if pattern.UnknownPattern? then Err(UnknownState) else Ok(Routed(before, after, pattern))
  }

  function Dispatch(r: Routed, tx: Transaction, c: LiveCell): Exec<()> {
    match r.pattern
    case OrderCancel => VerifyOrderCancel(r.before, tx)
    case OrderMatch => VerifyOrderMatch(r.before, r.after, tx, c)
    case MatchUpdate => VerifyMatchUpdate(r.before, r.after, tx, c)
    case MatchDestroy => VerifyMatchDestroy(r.before, tx, c)
    case UnknownPattern => Err(UnknownState)
  }

  /** The verdict on a transaction for the script group whose first cell is `c`. */
  function VerifyCell(tx: Transaction, c: LiveCell): Exec<()> {
    var routed :- Root(tx, c);
    Dispatch(routed, tx, c)
  }

  /** The verdict of the script with lock `self`. */
  function Verify(tx: Transaction, self: Script): Exec<()> {
    var c :- OrElse(FindLocked(tx.inputs, self), NotExecuted);
    VerifyCell(tx, c)
  }

  // ---------------------------------------------------------------------------
  // The tree as the program runs it: Root fills a Context, then one branch runs
  // ---------------------------------------------------------------------------

  class Context {
    var oldState: OpticrumState
    var newState: Option<OpticrumState>

    constructor ()
      ensures oldState == OpticrumState(Unknown, 0, None) && newState == None
    {
      oldState := OpticrumState(Unknown, 0, None);
      newState := None;
    }

    /** Root's step by step filling of the context, and the branch it names. */
    method VerifyRoot(tx: Transaction, c: LiveCell) returns (r: Exec<Pattern>)
      requires oldState == OpticrumState(Unknown, 0, None) && newState == None
      modifies this
      ensures match Root(tx, c)
              case Ok(routed) =>
                && r == Ok(routed.pattern)
                && oldState == routed.before && newState == routed.after
              case Err(e) => r == Err(e)
              case Trap => r == Trap
    {
      var branch :- ParseBranch(c.cell.lock.args, c.cell.data);
      oldState := oldState.(branch := branch);
      oldState := oldState.(unoccupiedCapacity := c.cell.Unoccupied());
      oldState := oldState.(xudt := ParseXudt(c.cell));

      var output := FindOpticrum(tx.outputs, c.cell.lock);
      if output.Some? {
        var newBranch :- ParseBranch(output.value.lock.args, output.value.data);
        newState := Some(OpticrumState(newBranch, output.value.Unoccupied(), ParseXudt(output.value)));
      }

      var pattern := Compare(oldState, newState);
      if pattern.UnknownPattern? {
        return Err(UnknownState);
      }
      return Ok(pattern);
    }
  }

  method RunTree(tx: Transaction, self: Script) returns (verdict: Exec<()>)
    ensures verdict == Verify(tx, self)
  {
    var c :- OrElse(FindLocked(tx.inputs, self), NotExecuted);
    var ctx := new Context();
    var pattern :- ctx.VerifyRoot(tx, c);
    match pattern {
      case OrderCancel =>
        verdict := VerifyOrderCancel(ctx.oldState, tx);
      case OrderMatch =>
        verdict := VerifyOrderMatch(ctx.oldState, ctx.newState, tx, c);
      case MatchUpdate =>
        verdict := VerifyMatchUpdate(ctx.oldState, ctx.newState, tx, c);
      case MatchDestroy =>
        verdict := VerifyMatchDestroy(ctx.oldState, tx, c);
      case UnknownPattern =>
        verdict := Err(UnknownState);
    }
  }
}
