// Which error a transaction is refused with: the outcome of the first check that
// fails, each check stated in terms of the rent law and of parsed cells.
module Faults {
  import opened Machine
  import opened LittleEndian
  import opened Protocol
  import opened Cells
  import opened State
  import opened Verifiers
  import opened Ledger
  import opened Runs

  /** Parsing looks at lengths alone. */
  function ParseVerdict(o: Cell): Exec<()> {
    var args, data := |o.lock.args|, |o.data|;
    if args != ORDER_ARGS_LEN && args != MATCH_ARGS_LEN then Err(BadArgsLength)
    else if args == ORDER_ARGS_LEN && data != ORDER_DATA_LEN then Err(OrderDataNotSet)
    else if args == MATCH_ARGS_LEN && data < MATCH_DATA_LEN then Err(MatchDataNotSet)
    else Ok(())
  }

  lemma ParseFaults(o: Cell)
    ensures match StateOf(o)
            case Ok(st) =>
              && ParseVerdict(o) == Ok(())
              && (if |o.lock.args| == ORDER_ARGS_LEN then st.branch.Order? else st.branch.Match?)
            case Err(e) => ParseVerdict(o) == Err(e)
            case Trap => false
  {
    hide ReadU32, ReadU64, ReadU128, ToLe;
    ParsersAreExact(o.lock.args);
    ParsersAreExact(o.data);
  }

  /** Root fails on the output or refuses the pair of states. */
  lemma RoutingFault(tx: Transaction, c: LiveCell)
    requires StateOf(c.cell).Ok?
    ensures !Root(tx, c).Ok? ==>
              match FindOpticrum(tx.outputs, c.cell.lock)
              case None => Root(tx, c) == Err(UnknownState)
              case Some(o) =>
                match StateOf(o)
                case Ok(_) => Root(tx, c) == Err(UnknownState)
                case Err(e) => Root(tx, c) == Err(e)
                case Trap => Root(tx, c) == Trap
  {
    hide StateOf, FindOpticrum, Compare;
  }

  /** `o` is a match with the args of `c`, and neither holds tokens. */
  predicate SameMatch(c: LiveCell, o: LiveCell)
    requires IsMatch(c)
  {
    IsCkbMatch(o) && ArgsOf(o) == ArgsOf(c)
  }

  function UpdateVerdict(tx: Transaction, c: LiveCell, o: LiveCell): Exec<()>
    requires IsCkbMatch(c)
  {
    var s, tip := Abs(c), TipOf(tx);
    var _ :- ParseVerdict(o.cell);
    if !SameMatch(c, o) then Err(UnknownState)
    else if DataOf(o).shannonsPerBlock != s.rate then Err(RentPerBlockMismatch)
    else if BuyerAlone(tx, c) then Require(DataOf(o).lastExtractionBlock == s.last, BadMatchDataUpdate)
    else if !SellerAlone(tx, c) then Err(AuthorizationMissing)
    else if !ChannelSupplied(tx, c) then Err(ChannelCellNotInDep)
    else if !HeadersPresent(tx, c) then Err(HeaderNotSet)
    else if s.Rent(tip) >= U64_SPAN then Trap
    else if s.Exhausted(tip) then Err(MatchNotExhausted)
    else if Minus(s.pool, o.cell.Unoccupied()) != s.Rent(tip) then Err(BadExtractionAmount)
    else Require(DataOf(o).lastExtractionBlock == tip, BadMatchDataUpdate)
  }

  /** The outcome of a Match to Match transaction. The args are never compared in vain:
      Root has already turned away every transaction that `BadMatchUpdate` would. */
  lemma UpdateFaults(tx: Transaction, c: LiveCell, o: LiveCell)
    requires Sole(tx, c) && IsCkbMatch(c) && FindOpticrum(tx.outputs, c.cell.lock) == Some(o.cell)
    ensures Verify(tx, c.cell.lock) == UpdateVerdict(tx, c, o)
  {
    hide StateOf, LiquidityRent, FindOpticrum, ParseXudt, ParseVerdict, Root;
    SoleIsHead(tx, c);
    RentIsIdeal(tx, c);
    UpdateRoute(tx, c, o);
    StateFields(c);
    TokensByType(c);
    ParseFaults(o.cell);
    RoutingFault(tx, c);
    if IsMatch(o) {
      TokensByType(o);
      StateFields(o);
    }
  }

  function DestroyVerdict(tx: Transaction, c: LiveCell): Exec<()>
    requires IsCkbMatch(c)
  {
    var s, tip := Abs(c), TipOf(tx);
    if !HasInputLock(tx, ArgsOf(c).sellerLockHash) then Err(SellerAuthMissing)
    else if !HeadersPresent(tx, c) then Err(HeaderNotSet)
    else if s.Rent(tip) >= U64_SPAN then Trap
    else Require(s.Exhausted(tip), MatchNotExhausted)
  }

  lemma DestroyFaults(tx: Transaction, c: LiveCell)
    requires Sole(tx, c) && IsCkbMatch(c) && FindOpticrum(tx.outputs, c.cell.lock) == None
    ensures Verify(tx, c.cell.lock) == DestroyVerdict(tx, c)
  {
    hide ParseBranch, ParseXudt, LiquidityRent, FindOpticrum;
    TokensByType(c);
    SoleIsHead(tx, c);
    RentIsIdeal(tx, c);
  }

  function MatchVerdict(tx: Transaction, c: LiveCell, m: LiveCell): Exec<()>
    requires IsOrder(c)
  {
    var od := OrderDataOf(c);
    var _ :- ParseVerdict(m.cell);
    if !IsMatch(m) || ArgsOf(m).orderArgs != OrderArgsOf(c) || ParseXudt(m.cell) != ParseXudt(c.cell)
    then Err(UnknownState) else
      var dep, md := FindAt(tx.cellDeps, ArgsOf(m).channelOutpoint), DataOf(m);
      if dep.None? || !MeetsDemand(dep.value, c) then Err(ChannelCellNotInDep)
      else if !HasInputLock(tx, ArgsOf(m).sellerLockHash) then Err(SellerAuthMissing)
      else if md.shannonsPerBlock != od.shannonsPerBlock || md.lastExtractionBlock != 0 then Err(MatchDataNotSet)
      else if m.cell.Unoccupied() != c.cell.Unoccupied() then Err(ChannelCapacityMismatch)
      else if md.xudtAmount != od.xudtAmount then Err(BadXudtAmount)
      else if c.block !in tx.headerDeps || dep.value.block !in tx.headerDeps then Err(HeaderNotSet)
      else Require(dep.value.block > c.block, ChannelCreatedBeforeOrder)
  }

  /** The outcome of an Order to Match transaction: it never traps. */
  lemma MatchFaults(tx: Transaction, c: LiveCell, m: LiveCell)
    requires Sole(tx, c) && IsOrder(c) && FindOpticrum(tx.outputs, c.cell.lock) == Some(m.cell)
    ensures Verify(tx, c.cell.lock) == MatchVerdict(tx, c, m)
  {
    hide StateOf, FindOpticrum, ParseXudt, OrderChannel, MeetsDemand, Root, ParseVerdict;
    SoleIsHead(tx, c);
    OrderRoute(tx, c, m);
    ParseFaults(m.cell);
    RoutingFault(tx, c);
    OrderFields(c);
    if IsMatch(m) {
      StateFields(m);
      OrderChannelExact(c, ArgsOf(m).channelOutpoint, tx);
    }
  }

  lemma OrderFields(c: LiveCell)
    requires IsOrder(c)
    ensures StateOf(c.cell).value ==
            OpticrumState(Order(OrderArgsOf(c), OrderDataOf(c)), c.cell.Unoccupied(), ParseXudt(c.cell))
  {
    hide ParseBranch, ParseXudt;
  }

  /** The outcome of spending an order without an Opticrum output. */
  lemma CancelFaults(tx: Transaction, c: LiveCell)
    requires Sole(tx, c) && IsOrder(c) && FindOpticrum(tx.outputs, c.cell.lock) == None
    ensures Verify(tx, c.cell.lock) ==
            if HasInputLock(tx, OrderArgsOf(c).buyerLockHash) then Ok(()) else Err(BuyerAuthMissing)
  {
    hide ParseBranch, ParseXudt, FindOpticrum;
    SoleIsHead(tx, c);
  }

  // ---------------------------------------------------------------------------
  // The branch verifiers alone
  // ---------------------------------------------------------------------------

  /** The script reports nothing on a transaction that spends no cell under its lock. */
  lemma Absent(tx: Transaction, self: Script)
    requires forall x | x in tx.inputs :: x.cell.lock != self
    ensures Verify(tx, self) == Err(NotExecuted)
  {
    var i := FindLockedFacts(tx.inputs, self);
  }

  /** Whatever states it is handed, Root's routing aside, a branch verifier refuses
      those of another branch. */
  lemma BranchGuards(before: OpticrumState, after: Option<OpticrumState>, tx: Transaction, c: LiveCell)
    ensures !before.branch.Order? ==>
              VerifyOrderCancel(before, tx) == VerifyOrderMatch(before, after, tx, c) == Err(UnexpectedBranch)
    ensures !before.branch.Match? ==>
              VerifyMatchUpdate(before, after, tx, c) == VerifyMatchDestroy(before, tx, c) == Err(UnexpectedBranch)
    ensures before.branch.Order? && (after.None? || !after.value.branch.Match?) ==>
              VerifyOrderMatch(before, after, tx, c) == Err(if after.None? then BadMatchUpdate else UnexpectedBranch)
    ensures before.branch.Match? && (after.None? || !after.value.branch.Match?) ==>
              VerifyMatchUpdate(before, after, tx, c) == Err(if after.None? then BadMatchUpdate else UnexpectedBranch)
  {
  }

  /** Nor does the update verifier rely on Root for the args and the token type. */
  lemma UpdateGuards(before: OpticrumState, after: OpticrumState, tx: Transaction, c: LiveCell)
    requires before.branch.Match? && after.branch.Match?
    ensures before.branch.matchArgs != after.branch.matchArgs ==>
              VerifyMatchUpdate(before, Some(after), tx, c) == Err(BadMatchUpdate)
    ensures var ma, md, md' := before.branch.matchArgs, before.branch.matchData, after.branch.matchData;
            && ma == after.branch.matchArgs && md.shannonsPerBlock == md'.shannonsPerBlock
            && md.lastExtractionBlock == md'.lastExtractionBlock
            && HasInputLock(tx, ma.orderArgs.buyerLockHash) && !HasInputLock(tx, ma.sellerLockHash)
            && before.xudt.Some? && after.xudt.Some? && before.xudt.value.typeScript != after.xudt.value.typeScript
            ==> VerifyMatchUpdate(before, Some(after), tx, c) == Err(BadMatchUpdate)
  {
  }
}
