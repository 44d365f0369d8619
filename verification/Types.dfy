// What the off-chain side keeps about a cell, and its own copy of the rent law.
module Types {
  import opened Machine
  import opened Protocol
  import opened Cells

  datatype OrderInfo = OrderInfo(
    orderArgs: OrderArgs, orderData: OrderData, xudt: Option<Xudt>, ckbCapacity: u64,
    orderOutpoint: OutPoint, fiberAddress: Option<string>)

  datatype MatchInfo = MatchInfo(
    matchArgs: MatchArgs, matchData: MatchData, xudt: Option<Xudt>, ckbCapacity: u64,
    matchOutpoint: OutPoint, matchCurrentBlock: u64)
  {
    function ExtractionAmount(tipBlock: u64): Exec<u64> {
      var startBlock := if matchData.lastExtractionBlock == 0 then matchCurrentBlock else matchData.lastExtractionBlock;
      CheckedMul(matchData.shannonsPerBlock, SatSub(tipBlock, startBlock))
    }

    function IsExhausted(tipBlock: u64): Exec<bool> {
      var accumulatedRent :- ExtractionAmount(tipBlock);
      match xudt
      case Some(x) => Ok(x.amount <= accumulatedRent)
      case None => Ok(ckbCapacity <= accumulatedRent)
    }
  }
}
