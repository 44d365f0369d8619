// A seller who steps block by block drains any funded match.
module Draining {
  import opened Machine
  import opened Protocol
  import opened Cells
  import opened State
  import opened Verifiers
  import opened Ledger
  import opened Runs
  import opened Types
  import opened Reader
  import opened Calculator
  import opened Lifecycle

  /** The chain with `c` live on it. */
  function With(env: Env, c: LiveCell): Env {
    env.(live := [c] + env.live)
  }

  /** The seller can act on `c`: a CKB match with 32-byte data under the deployed
      contract, a buyer who is someone else, a cell of the seller's own, the channel,
      and a chain that has reached the base. */
  predicate CanAct(env: Env, seller: Address, c: LiveCell) {
    && IsCkbMatch(c) && c.cell.Stored() && |c.cell.data| == MATCH_DATA_LEN
    && Abs(c).rate > 0
    && c.cell.lock.codeHash == env.codeHash && c.cell.lock.hashType.Type?
    && seller.lockHash == ArgsOf(c).sellerLockHash
    && seller.lockHash != ArgsOf(c).orderArgs.buyerLockHash && c.lockHash != ArgsOf(c).orderArgs.buyerLockHash
    && (seller.lock.codeHash == c.cell.lock.codeHash ==> !seller.lock.hashType.Type?)
    && FindLocked(env.live, seller.lock).Some?
    && FindLocked(env.live, seller.lock).value.lockHash == seller.lockHash
    && FindAt(env.live, ArgsOf(c).channelOutpoint).Some?
    && c.block <= env.height && Abs(c).Base() < env.height
  }

  const NOTHING := Balance([], [], [])

  /** What the seller's client computes at a tip no later than one block past the base. */
  lemma Prepare(env: Env, seller: Address, c: LiveCell, tip: u64) returns (info: MatchInfo)
    requires CanAct(env, seller, c) && tip <= Abs(c).Base() + 1
    ensures ParseMatchCell(c) == Some(info)
    ensures SellerReady(With(env, c), NOTHING, seller, c, info, tip)
    ensures FindAt(With(env, c).live, info.matchArgs.channelOutpoint).Some?
    ensures info.xudt.None? && info.matchArgs == ArgsOf(c)
    ensures info.ExtractionAmount(tip) == Ok(Abs(c).Rent(tip))
    ensures info.IsExhausted(tip) == Ok(Abs(c).Exhausted(tip))
  {
    hide StateOf, ParseMatchCell;
    MatchParserAgrees(c);
    info := ParseMatchCell(c).value;
    InfoFacts(c, info);
    assert With(env, c).live[1..] == env.live;
    RentNearBase(Abs(c), tip);
    OffChainRent(c, info, tip);
  }

  lemma NoBuyer(tx: Transaction, c: LiveCell, sellerHash: Bytes32, buyerHash: Bytes32)
    requires forall x | x in tx.inputs :: x == c || x.lockHash == sellerHash
    requires c.lockHash != buyerHash && sellerHash != buyerHash
    ensures !HasInputLock(Balanced(tx, NOTHING), buyerHash)
  {
  }

  /** The match that an extraction near the base leaves. */
  lemma Poorer(env: Env, seller: Address, c: LiveCell, info: MatchInfo, tip: u64, rent: u64, n: LiveCell)
    requires CanAct(env, seller, c) && ParseMatchCell(c) == Some(info)
    requires 0 < tip < env.height && rent < Abs(c).pool && rent <= c.cell.capacity
    requires c.block <= n.block <= env.height && n.lockHash == c.lockHash && info.xudt.None?
    requires n.cell == ExtractOutput(c, info, rent, tip)
    ensures CanAct(env, seller, n)
    ensures Abs(n) == MatchState(Abs(c).pool - rent, Abs(c).rate, tip, n.block)
  {
    hide StateOf, ParseMatchCell, FindAt, FindLocked;
    InfoFacts(c, info);
    ExtractOutputPool(c, info, rent, tip);
    ExtractSimulates(c, info, rent, tip, n);
    InfoFacts(n, ParseMatchCell(n).value);
  }

  /** At every positive tip up to one block past the base at which the match is not
      exhausted, the extraction the calculator builds is accepted and leaves a match
      poorer by the rent, with its base at the tip, on which the seller can act again.
      Nothing asks the tip to be past the base. */
  lemma StepExtract(env: Env, seller: Address, c: LiveCell, tip: u64, at: OutPoint) returns (hop: Hop)
    requires CanAct(env, seller, c) && 0 < tip <= Abs(c).Base() + 1 && tip < env.height && !Abs(c).Exhausted(tip)
    ensures Accepted(c, hop) && hop.next.Some?
    ensures TipOf(hop.tx) == tip && HasInputLock(hop.tx, ArgsOf(c).sellerLockHash)
    ensures var n := hop.next.value;
            && n.outPoint == at && CanAct(env, seller, n)
            && Abs(n) == MatchState(Abs(c).pool - Abs(c).Rent(tip), Abs(c).rate, tip, n.block)
  {
    hide StateOf, ParseMatchCell, Verify, Build, ExtractRentOps, FindAt, FindLocked, FindOpticrum, ParseXudt;
    var info := Prepare(env, seller, c, tip);
    var rent := Abs(c).Rent(tip);
    hide SellerReady, CanAct, HasInputLock, ExtractOutput, Abs, Sole, ArgsOf, IsMatch;
    ExtractAccepted(With(env, c), [], NOTHING, seller, c, info, tip, rent);
    var built := Build(ExtractRentOps(seller, info, tip).value, With(env, c), []).value;
    SellerIsNotBuyer(env, seller, c);
    NoBuyer(built, c, seller.lockHash, info.matchArgs.orderArgs.buyerLockHash);
    var n := LiveCell(at, ExtractOutput(c, info, rent, tip), c.lockHash, if c.block > tip + 1 then c.block else tip + 1);
    Poorer(env, seller, c, info, tip, rent, n);
    hop := Hop(Balanced(built, NOTHING), Some(n));
  }

  lemma SellerIsNotBuyer(env: Env, seller: Address, c: LiveCell)
    requires CanAct(env, seller, c)
    ensures IsCkbMatch(c) && Abs(c).rate > 0 && |c.cell.data| == MATCH_DATA_LEN
    ensures c.block <= env.height && Abs(c).Base() < env.height
    ensures seller.lockHash == ArgsOf(c).sellerLockHash
    ensures seller.lockHash != ArgsOf(c).orderArgs.buyerLockHash && c.lockHash != ArgsOf(c).orderArgs.buyerLockHash
    ensures Abs(c).pool <= c.cell.capacity
  {
  }

  /** One block past the base of a match worth at most one rate, the destroy is
      accepted. */
  lemma StepDestroy(env: Env, seller: Address, c: LiveCell) returns (hop: Hop)
    requires CanAct(env, seller, c) && Abs(c).pool <= Abs(c).rate
    ensures Accepted(c, hop) && hop.next.None?
    ensures TipOf(hop.tx) == Abs(c).Base() + 1
  {
    hide StateOf, ParseMatchCell, Verify, Build, DestroyMatchOps, FindAt, FindLocked, FindOpticrum, ParseXudt;
    var tip := Abs(c).Base() + 1;
    var info := Prepare(env, seller, c, tip);
    RentNearBase(Abs(c), tip);
    hide SellerReady, CanAct;
    DestroyAccepted(With(env, c), [], NOTHING, seller, c, info, tip);
    hop := Hop(Balanced(Build(DestroyMatchOps(seller, info, tip), With(env, c), []).value, NOTHING), None);
  }

  /** The number of steps it takes to drain a match. */
  function Steps(s: MatchState): nat
    requires s.rate > 0
  {
    if s.pool == 0 then 1 else CeilDiv(s.pool, s.rate)
  }

  lemma LastPays(c: LiveCell, hop: Hop)
    requires IsCkbMatch(c) && Accepted(c, hop) && hop.next.None?
    ensures Run(c, [hop]) && Payout(Abs(c), Moves(c, [hop])) == Abs(c).pool
    ensures TipOf(hop.tx) > Abs(c).Base() ==> Undisturbed(Abs(c), Moves(c, [hop]))
  {
    hide StateOf, Verify, FindOpticrum;
    var m := MoveOf(c, hop);
    assert Moves(c, [hop]) == [m] && m.Destroy? && [m][1..] == [];
    assert Tally(After(Abs(c), m), []) == Tally(Abs(c), []) && GoodTips(After(Abs(c), m), []);
    assert m == Destroy(TipOf(hop.tx)) && Tally(Abs(c), [m]).sellerAdded == 0;
    assert TipOf(hop.tx) > Abs(c).Base() ==> GoodTips(Abs(c), [m]);
  }

  lemma FirstPays(c: LiveCell, hop: Hop, n: LiveCell, rest: seq<Hop>)
    requires IsCkbMatch(c) && Accepted(c, hop) && hop.next == Some(n) && HasInputLock(hop.tx, ArgsOf(c).sellerLockHash)
    requires IsCkbMatch(n) && Run(n, rest) && Abs(n).pool <= Abs(c).pool
    ensures Run(c, [hop] + rest)
    ensures Payout(Abs(c), Moves(c, [hop] + rest)) == Abs(c).pool - Abs(n).pool + Payout(Abs(n), Moves(n, rest))
    ensures TipOf(hop.tx) > Abs(c).Base() && Undisturbed(Abs(n), Moves(n, rest))
            ==> Undisturbed(Abs(c), Moves(c, [hop] + rest))
  {
    hide StateOf, Verify, FindOpticrum;
    HopRefines(c, hop);
    assert ([hop] + rest)[1..] == rest;
    var run := Moves(c, [hop] + rest);
    assert run == [MoveOf(c, hop)] + Moves(n, rest) && run[1..] == Moves(n, rest);
  }

  /** From every such match, on a chain that reaches past the threshold, there is an
      accepted run in which the seller acts at consecutive blocks from the base on,
      that destroys the match after ceil(pool / rate) steps and pays the seller the
      whole pool. `places` says where the cells along the way sit. */
  lemma {:induction false} Drain(env: Env, seller: Address, c: LiveCell, places: nat -> OutPoint) returns (hops: seq<Hop>)
    requires CanAct(env, seller, c) && Abs(c).rate > 0 && Threshold(Abs(c)) < env.height
    ensures Run(c, hops) && hops != [] && |hops| == Steps(Abs(c)) && hops[|hops| - 1].next.None?
    ensures forall i :: 0 <= i < |hops| ==> TipOf(hops[i].tx) == Abs(c).Base() + 1 + i
    ensures Undisturbed(Abs(c), Moves(c, hops)) && Payout(Abs(c), Moves(c, hops)) == Abs(c).pool
    decreases Abs(c).pool
  {
    hide StateOf, Verify, FindAt, FindLocked, FindOpticrum, CanAct, Run, Accepted, Moves, Payout, Undisturbed,
      HasInputLock, Abs, CeilDiv;
    SellerIsNotBuyer(env, seller, c);
    var s := Abs(c);
    RentNearBase(s, s.Base() + 1);
    if s.pool <= s.rate {
      OneStep(s);
      var hop := StepDestroy(env, seller, c);
      hops := [hop];
      LastPays(c, hop);
    } else {
      OneStepLess(s);
      var hop := StepExtract(env, seller, c, s.Base() + 1, places(s.Base()));
      var n := hop.next.value;
      SellerIsNotBuyer(env, seller, n);
      var rest := Drain(env, seller, n, places);
      hops := [hop] + rest;
      FirstPays(c, hop, n, rest);
    }
  }

  lemma OneStep(s: MatchState)
    requires 0 < s.rate && s.pool <= s.rate
    ensures Steps(s) == 1
  {
    CeilDivLeast(s.pool, s.rate, 0);
    CeilDivLeast(s.pool, s.rate, 1);
  }

  lemma OneStepLess(s: MatchState)
    requires 0 < s.rate < s.pool
    ensures CeilDiv(s.pool, s.rate) == Steps(s) > 1
    ensures forall n: MatchState | n.rate == s.rate && n.pool == s.pool - s.rate && n.last == s.Base() + 1 ::
              Steps(n) == Steps(s) - 1 && Threshold(n) == Threshold(s)
  {
    CeilDivLeast(s.pool, s.rate, 1);
    var q := CeilDiv(s.pool, s.rate);
    assert (q - 1) * s.rate == q * s.rate - s.rate;
    CeilDivUnique(s.pool - s.rate, s.rate, q - 1);
  }

  // ---------------------------------------------------------------------------
  // Too early
  // ---------------------------------------------------------------------------

  /** The same payout needs no such chain. Between two extractions the seller can set
      the clock back by one block, at a tip behind it, and be paid for that block once
      more. So from every match with a positive base, whatever its pool, there is an
      accepted run that pays the seller all of it with no tip beyond one block past the
      base, where only one rate is due. */
  lemma {:induction false} DrainEarly(env: Env, seller: Address, c: LiveCell, at: OutPoint) returns (hops: seq<Hop>)
    requires CanAct(env, seller, c) && Abs(c).Base() > 0
    requires Abs(c).Base() + 1 < env.height
    ensures Run(c, hops) && hops != [] && hops[|hops| - 1].next.None?
    ensures forall hop | hop in hops :: TipOf(hop.tx) <= Abs(c).Base() + 1
    ensures Payout(Abs(c), Moves(c, hops)) == Abs(c).pool && Abs(c).Rent(Abs(c).Base() + 1) == Abs(c).rate
    decreases Abs(c).pool
  {
    hide StateOf, Verify, FindAt, FindLocked, FindOpticrum, CanAct, Run, Accepted, Moves, Payout, Undisturbed,
      HasInputLock, Abs;
    SellerIsNotBuyer(env, seller, c);
    var s := Abs(c);
    RentNearBase(s, s.Base() + 1);
    if s.pool <= s.rate {
      var hop := StepDestroy(env, seller, c);
      hops := [hop];
      LastPays(c, hop);
    } else {
      var hop := StepExtract(env, seller, c, s.Base() + 1, at);
      var n := hop.next.value;
      SellerIsNotBuyer(env, seller, n);
      RentNearBase(Abs(n), s.Base());
      var back := StepExtract(env, seller, n, s.Base(), at);
      var n' := back.next.value;
      SellerIsNotBuyer(env, seller, n');
      var rest := DrainEarly(env, seller, n', at);
      FirstPays(n, back, n', rest);
      FirstPays(c, hop, n, [back] + rest);
      hops := [hop] + ([back] + rest);
    }
  }

  // ---------------------------------------------------------------------------
  // From order to nothing
  // ---------------------------------------------------------------------------

  /** The seller holds a channel for the created CKB order `c`, is not its buyer, and
      the chain reaches past the block at which a match made at `block` runs dry. */
  predicate CanServe(env: Env, seller: Address, c: LiveCell, info: OrderInfo, matchArgs: MatchArgs, block: u64) {
    && MatchReady(env, [], NOTHING, seller, c, info, matchArgs)
    && c.cell.typeScript.None? && info.orderData.shannonsPerBlock > 0
    && seller.lockHash != info.orderArgs.buyerLockHash
    && c.block <= block && block + CeilDiv(c.cell.Unoccupied(), info.orderData.shannonsPerBlock) < env.height
  }

  /** The match that `match_order` leaves can be drained. */
  lemma Served(env: Env, seller: Address, c: LiveCell, info: OrderInfo, matchArgs: MatchArgs, m: LiveCell)
    requires CanServe(env, seller, c, info, matchArgs, m.block) && m.lockHash != info.orderArgs.buyerLockHash
    requires m.cell == MatchOutput(c, info, matchArgs, c.cell.capacity + ORDER_TO_MATCH_CAPACITY_RESERVE)
    ensures CanAct(env, seller, m) && Abs(m).rate > 0 && Threshold(Abs(m)) < env.height
    ensures Abs(m) == MatchState(c.cell.Unoccupied(), info.orderData.shannonsPerBlock, 0, m.block)
  {
    hide ParseOrderCell, ParseBranch, FindAt, FindLocked, CeilDiv;
    ReserveIsGrowth(c, info, matchArgs);
    OrderKeepsTokens(c, info);
    OrderTokens(c, info, m.cell, 0);
    RebuiltMatch(m.cell, matchArgs, MatchData.New(0, info.orderData.shannonsPerBlock));
  }

  /** A whole life. From every order that `create_order` made with positive rate, and
      every younger channel that meets its demand, there is an accepted run that
      matches the order, extracts, destroys the match, and pays the seller exactly the
      rent capacity the buyer put in. */
  lemma WholeLife(env: Env, seller: Address, c: LiveCell, info: OrderInfo, matchArgs: MatchArgs, orderData: OrderData,
                  rentCapacity: u64, m: LiveCell, places: nat -> OutPoint) returns (hops: seq<Hop>)
    requires CreatedOrder(env.codeHash, info.orderArgs, orderData, rentCapacity, None) == Ok(c.cell)
    requires CanServe(env, seller, c, info, matchArgs, m.block) && m.lockHash != info.orderArgs.buyerLockHash
    requires m.cell == MatchOutput(c, info, matchArgs, c.cell.capacity + ORDER_TO_MATCH_CAPACITY_RESERVE)
    requires IsOrder(c) && var channel := FindAt(env.live, matchArgs.channelOutpoint).value;
                           MeetsDemand(channel, c) && channel.block > c.block
    ensures IsCkbMatch(m) && Abs(m).rate == orderData.shannonsPerBlock > 0
    ensures Run(c, hops) && hops != [] && hops[0].next == Some(m) && hops[|hops| - 1].next.None?
    ensures |hops| == 1 + Steps(Abs(m))
    ensures Run(m, hops[1..]) && Payout(Abs(m), Moves(m, hops[1..])) == rentCapacity
  {
    hide StateOf, Verify, Build, MatchOrder, FindAt, FindLocked, FindOpticrum, MeetsDemand, ParseOrderCell, MatchOutput,
      Moves, Payout, Steps, Undisturbed, CanAct, CreatedOrder;
    CreatedOrderReads(env.codeHash, info.orderArgs, orderData, rentCapacity, None, c);
    OrderParserAgrees(c);
    MatchOrderAccepted(env, [], NOTHING, seller, c, info, matchArgs);
    Served(env, seller, c, info, matchArgs, m);
    SellerIsNotBuyer(env, seller, m);
    var first := Hop(Balanced(Build(MatchOrder(seller, info, matchArgs), env, []).value, NOTHING), Some(m));
    var rest := Drain(env, seller, m, places);
    hops := [first] + rest;
    assert hops[1..] == rest && hops[|hops| - 1] == rest[|rest| - 1] && Accepted(c, first);
  }
}
