// Parsed cell states, transition routing and the on-chain rent law.
module State {
  import opened Machine
  import opened Protocol
  import opened Cells

  datatype Branch =
    | Order(orderArgs: OrderArgs, orderData: OrderData)
    | Match(matchArgs: MatchArgs, matchData: MatchData)
    | Unknown

  datatype Pattern = OrderCancel | OrderMatch | MatchUpdate | MatchDestroy | UnknownPattern

  datatype OpticrumState = OpticrumState(branch: Branch, unoccupiedCapacity: u64, xudt: Option<Xudt>)

  function OrElse<T>(parsed: Option<T>, error: Error): Exec<T> {
    if parsed.Some? then Ok(parsed.value) else Err(error)
  }

  /** Order and Match are told apart by the length of the lock args alone. */
  function ParseBranch(args: Bytes, data: Bytes): Exec<Branch> {
    if |args| == ORDER_ARGS_LEN then
      var orderArgs :- OrElse(OrderArgs.FromSlice(args), BadArgsLength);
      var orderData :- OrElse(OrderData.FromSlice(data), OrderDataNotSet);
      Ok(Order(orderArgs, orderData))
    else if |args| == MATCH_ARGS_LEN then
      var matchArgs :- OrElse(MatchArgs.FromSlice(args), BadArgsLength);
      var matchData :- OrElse(MatchData.FromSlice(data), MatchDataNotSet);
      Ok(Match(matchArgs, matchData))
    else Err(BadArgsLength)
  }

  function StateOf(cell: Cell): Exec<OpticrumState> {
    var branch :- ParseBranch(cell.lock.args, cell.data);
    Ok(OpticrumState(branch, cell.Unoccupied(), ParseXudt(cell)))
  }

  function Compare(before: OpticrumState, after: Option<OpticrumState>): Pattern {
    match before.branch
    case Order(orderArgs, _) =>
      if after.None? then OrderCancel else (
        match after.value.branch
        case Match(matchArgs, _) =>
          if orderArgs == matchArgs.orderArgs && before.xudt == after.value.xudt
          then OrderMatch else UnknownPattern
        case _ => UnknownPattern)
    case Match(matchArgs, _) =>
      if after.None? then MatchDestroy else (
        match after.value.branch
        case Match(newMatchArgs, _) =>
          if matchArgs == newMatchArgs && before.xudt == after.value.xudt
          then MatchUpdate else UnknownPattern
        case _ => UnknownPattern)
    case Unknown => UnknownPattern
  }

  /** Rent owed by the consumed cell `c`, whose state is `st`, at the block number
      of the first header dep. A clock of zero means "never extracted": the base is
      then the block of `c` itself. */
  function LiquidityRent(st: OpticrumState, tx: Transaction, c: LiveCell): Exec<u64> {
    if !st.branch.Match? then Err(UnexpectedBranch) else
      var md := st.branch.matchData;
      var baseBlock :- if md.lastExtractionBlock == 0 then HeaderOf(tx, c) else Ok(md.lastExtractionBlock);
      var tipBlock :- HeaderDepNumber(tx, 0);
      CheckedMul(md.shannonsPerBlock, SatSub(tipBlock, baseBlock))
  }

  function IsExhausted(st: OpticrumState, tx: Transaction, c: LiveCell): Exec<bool> {
    var rent :- LiquidityRent(st, tx, c);
    match st.xudt
    case Some(x) => Ok(x.amount <= rent)
    case None => Ok(st.unoccupiedCapacity <= rent)
  }
}
