// Runs of accepted transactions, from the contract's verdicts to the rent law.
//
// A run follows one Opticrum cell: each hop is a transaction that spends the cell
// alone in its script group and that the contract accepts, and the next cell is the
// first Opticrum output, created no earlier than the cell it replaces.
module Runs {
  import opened Machine
  import opened LittleEndian
  import opened Protocol
  import opened Cells
  import opened State
  import opened Verifiers
  import opened Ledger

  predicate IsOrder(c: LiveCell) {
    StateOf(c.cell).Ok? && StateOf(c.cell).value.branch.Order?
  }

  predicate IsMatch(c: LiveCell) {
    StateOf(c.cell).Ok? && StateOf(c.cell).value.branch.Match?
  }

  predicate IsCkbMatch(c: LiveCell) {
    IsMatch(c) && c.cell.typeScript.None?
  }

  function OrderArgsOf(c: LiveCell): OrderArgs
    requires IsOrder(c)
  {
    StateOf(c.cell).value.branch.orderArgs
  }

  function OrderDataOf(c: LiveCell): OrderData
    requires IsOrder(c)
  {
    StateOf(c.cell).value.branch.orderData
  }

  function ArgsOf(c: LiveCell): MatchArgs
    requires IsMatch(c)
  {
    StateOf(c.cell).value.branch.matchArgs
  }

  function DataOf(c: LiveCell): MatchData
    requires IsMatch(c)
  {
    StateOf(c.cell).value.branch.matchData
  }

  /** The rent law's view of a match cell. */
  function Abs(c: LiveCell): MatchState
    requires IsMatch(c)
  {
    MatchState(c.cell.Unoccupied(), DataOf(c).shannonsPerBlock, DataOf(c).lastExtractionBlock, c.block)
  }

  datatype Hop = Hop(tx: Transaction, next: Option<LiveCell>)

  /** `c` is spent and is the only member of its script group. */
  predicate Sole(tx: Transaction, c: LiveCell) {
    c in tx.inputs && forall x | x in tx.inputs && x.cell.lock == c.cell.lock :: x == c
  }

  lemma SoleIsHead(tx: Transaction, c: LiveCell)
    requires Sole(tx, c)
    ensures FindLocked(tx.inputs, c.cell.lock) == Some(c)
    ensures Verify(tx, c.cell.lock) == VerifyCell(tx, c)
  {
    var i := FindLockedFacts(tx.inputs, c.cell.lock);
  }

  predicate Accepted(c: LiveCell, hop: Hop) {
    && Sole(hop.tx, c)
    && Verify(hop.tx, c.cell.lock).Ok?
    && match FindOpticrum(hop.tx.outputs, c.cell.lock) {
         case None => hop.next.None?
         case Some(o) => hop.next.Some? && hop.next.value.cell == o && c.block <= hop.next.value.block
       }
  }

  predicate Run(c: LiveCell, hops: seq<Hop>)
    decreases |hops|
  {
    hops == [] || (
      && Accepted(c, hops[0])
      && (if hops[0].next.None? then |hops| == 1 else Run(hops[0].next.value, hops[1..])))
  }

  /** The last cell of a run: the live one, or the one a final hop consumed. */
  function Last(c: LiveCell, hops: seq<Hop>): LiveCell
    decreases |hops|
  {
    if hops == [] || hops[0].next.None? then c else Last(hops[0].next.value, hops[1..])
  }

  // ---------------------------------------------------------------------------
  // Exact verdicts on CKB matches, in unbounded arithmetic
  // ---------------------------------------------------------------------------

  predicate SellerAlone(tx: Transaction, c: LiveCell)
    requires IsMatch(c)
  {
    HasInputLock(tx, ArgsOf(c).sellerLockHash) && !HasInputLock(tx, ArgsOf(c).orderArgs.buyerLockHash)
  }

  predicate BuyerAlone(tx: Transaction, c: LiveCell)
    requires IsMatch(c)
  {
    !HasInputLock(tx, ArgsOf(c).sellerLockHash) && HasInputLock(tx, ArgsOf(c).orderArgs.buyerLockHash)
  }

  /** A cell dep sits at the outpoint of the match's channel. */
  predicate ChannelSupplied(tx: Transaction, c: LiveCell)
    requires IsMatch(c)
  {
    exists dep | dep in tx.cellDeps :: dep.outPoint == ArgsOf(c).channelOutpoint
  }

  /** The headers the rent law reads. */
  predicate HeadersPresent(tx: Transaction, c: LiveCell)
    requires IsMatch(c)
  {
    tx.headerDeps != [] && (DataOf(c).lastExtractionBlock == 0 ==> c.block in tx.headerDeps)
  }

  /** `o` is a CKB match with the args and rate of `c`. */
  predicate KeepsTerms(c: LiveCell, o: LiveCell)
    requires IsMatch(c)
  {
    IsCkbMatch(o) && ArgsOf(o) == ArgsOf(c) && DataOf(o).shannonsPerBlock == DataOf(c).shannonsPerBlock
  }

  /** On-chain rent is ideal rent, or a trap when that needs more than 64 bits. */
  lemma RentIsIdeal(tx: Transaction, c: LiveCell)
    requires IsMatch(c)
    ensures var st := StateOf(c.cell).value; var rent := LiquidityRent(st, tx, c);
            if !HeadersPresent(tx, c) then rent == Err(HeaderNotSet)
            else if Abs(c).Rent(tx.headerDeps[0]) < U64_SPAN then rent == Ok(Abs(c).Rent(tx.headerDeps[0]))
            else rent == Trap
  {
    hide ParseBranch, ParseXudt;
  }

  /** A match holds tokens exactly when its cell has a type script. */
  lemma TokensByType(c: LiveCell)
    requires IsMatch(c)
    ensures ParseXudt(c.cell).None? <==> c.cell.typeScript.None?
  {
  }

  /** Root lets a match through to another match only with equal args and equal
      tokens, amount included. */
  lemma UpdateRoute(tx: Transaction, c: LiveCell, o: LiveCell)
    requires IsMatch(c) && FindOpticrum(tx.outputs, c.cell.lock) == Some(o.cell)
    ensures if IsMatch(o) && ArgsOf(o) == ArgsOf(c) && ParseXudt(o.cell) == ParseXudt(c.cell)
            then Root(tx, c) == Ok(Routed(StateOf(c.cell).value, Some(StateOf(o.cell).value), MatchUpdate))
            else !Root(tx, c).Ok?
  {
    hide ParseBranch, ParseXudt, FindOpticrum;
    if StateOf(o.cell).Ok? {
      assert NewState(tx, c.cell.lock) == Ok(Some(StateOf(o.cell).value));
    }
  }

  lemma StateFields(c: LiveCell)
    requires IsMatch(c)
    ensures StateOf(c.cell).value == OpticrumState(Match(ArgsOf(c), DataOf(c)), c.cell.Unoccupied(), ParseXudt(c.cell))
  {
    hide ParseBranch, ParseXudt;
  }

  lemma CkbUpdateVerdict(before: OpticrumState, after: OpticrumState, tx: Transaction, c: LiveCell)
    requires before.branch.Match? && after.branch.Match? && before.xudt.None? && after.xudt.None?
    requires before.branch.matchArgs == after.branch.matchArgs
    ensures VerifyMatchUpdate(before, Some(after), tx, c).Ok? <==>
            var ma, md, md' := before.branch.matchArgs, before.branch.matchData, after.branch.matchData;
            var seller, buyer := HasInputLock(tx, ma.sellerLockHash), HasInputLock(tx, ma.orderArgs.buyerLockHash);
            var rent := LiquidityRent(before, tx, c);
            && md.shannonsPerBlock == md'.shannonsPerBlock
            && (|| (&& seller && !buyer && ChannelExists(tx, ma.channelOutpoint)
                    && rent.Ok? && before.unoccupiedCapacity > rent.value
                    && SatSub(before.unoccupiedCapacity, after.unoccupiedCapacity) == rent.value
                    && HeaderDepNumber(tx, 0) == Ok(md'.lastExtractionBlock))
                || (!seller && buyer && md'.lastExtractionBlock == md.lastExtractionBlock))
  {
    hide LiquidityRent;
  }

  /** A Match to Match transaction is accepted exactly when the terms are kept and
      either the seller alone makes an extraction the ideal law allows, moving the
      clock to the tip, or the buyer alone keeps the clock. Overflow plays no part:
      a rent too large to compute is more than any pool. */
  lemma UpdateExact(tx: Transaction, c: LiveCell, o: LiveCell)
    requires Sole(tx, c) && IsCkbMatch(c) && c.block <= o.block
    requires FindOpticrum(tx.outputs, c.cell.lock) == Some(o.cell)
    ensures Verify(tx, c.cell.lock).Ok? <==>
            && KeepsTerms(c, o)
            && (|| (&& SellerAlone(tx, c)
                    && ChannelSupplied(tx, c)
                    && HeadersPresent(tx, c)
                    && DataOf(o).lastExtractionBlock == tx.headerDeps[0]
                    && Allowed(Abs(c), Extract(tx.headerDeps[0], o.cell.Unoccupied(), o.block)))
                || (BuyerAlone(tx, c) && DataOf(o).lastExtractionBlock == DataOf(c).lastExtractionBlock))
  {
    hide StateOf, VerifyMatchUpdate, LiquidityRent, Root;
    SoleIsHead(tx, c);
    RentIsIdeal(tx, c);
    UpdateRoute(tx, c, o);
    StateFields(c);
    TokensByType(c);
    if IsMatch(o) {
      TokensByType(o);
    }
    if IsMatch(o) && ArgsOf(o) == ArgsOf(c) && ParseXudt(o.cell) == ParseXudt(c.cell) {
      StateFields(o);
      CkbUpdateVerdict(StateOf(c.cell).value, StateOf(o.cell).value, tx, c);
    }
  }

  /** A transaction without an Opticrum output is accepted exactly when the seller
      is present, the ideal law calls the match exhausted, and the rent fits 64
      bits; it traps exactly when the rent does not fit. */
  lemma DestroyExact(tx: Transaction, c: LiveCell)
    requires Sole(tx, c) && IsCkbMatch(c)
    requires FindOpticrum(tx.outputs, c.cell.lock) == None
    ensures Verify(tx, c.cell.lock).Ok? <==>
            && HasInputLock(tx, ArgsOf(c).sellerLockHash)
            && HeadersPresent(tx, c)
            && Allowed(Abs(c), Destroy(tx.headerDeps[0]))
            && Abs(c).Rent(tx.headerDeps[0]) < U64_SPAN
    ensures Verify(tx, c.cell.lock).Trap? <==>
            && HasInputLock(tx, ArgsOf(c).sellerLockHash)
            && HeadersPresent(tx, c)
            && Abs(c).Rent(tx.headerDeps[0]) >= U64_SPAN
  {
    hide ParseBranch, ParseXudt, LiquidityRent, FindOpticrum;
    TokensByType(c);
    SoleIsHead(tx, c);
    RentIsIdeal(tx, c);
  }

  /** The seller's two options never overlap. With the seller alone, the channel and
      the headers supplied, a well-formed extraction at `tip` is accepted exactly while
      there is a pool and `tip` is before the threshold block. A destroy is accepted
      exactly otherwise, as long as the rent fits 64 bits. */
  lemma SellerWindow(tx: Transaction, c: LiveCell)
    requires Sole(tx, c) && IsCkbMatch(c) && SellerAlone(tx, c) && HeadersPresent(tx, c)
    requires ChannelSupplied(tx, c) && Abs(c).rate > 0
    ensures var tip := tx.headerDeps[0]; var accepted := Verify(tx, c.cell.lock).Ok?;
            var open := Abs(c).pool > 0 && tip < Threshold(Abs(c));
            match FindOpticrum(tx.outputs, c.cell.lock)
            case None => accepted <==> !open && Abs(c).Rent(tip) < U64_SPAN
            case Some(o) =>
              var next := LiveCell(c.outPoint, o, c.lockHash, c.block);
              && (accepted ==> open)
              && (&& KeepsTerms(c, next)
                  && DataOf(next).lastExtractionBlock == tip
                  && Minus(Abs(c).pool, o.Unoccupied()) == Abs(c).Rent(tip)
                  ==> (accepted <==> open))
  {
    hide StateOf, VerifyCell;
    ThresholdExact(Abs(c), tx.headerDeps[0]);
    match FindOpticrum(tx.outputs, c.cell.lock) {
      case None => DestroyExact(tx, c);
      case Some(o) => UpdateExact(tx, c, LiveCell(c.outPoint, o, c.lockHash, c.block));
    }
  }

  // ---------------------------------------------------------------------------
  // From hops to moves
  // ---------------------------------------------------------------------------

  function TipOf(tx: Transaction): u64 {
    if tx.headerDeps == [] then 0 else tx.headerDeps[0]
  }

  function MoveOf(c: LiveCell, hop: Hop): Move
    requires IsMatch(c)
  {
    if hop.next.None? then Destroy(TipOf(hop.tx))
    else if HasInputLock(hop.tx, ArgsOf(c).sellerLockHash)
    then Extract(TipOf(hop.tx), hop.next.value.cell.Unoccupied(), hop.next.value.block)
    else Buyer(hop.next.value.cell.Unoccupied(), hop.next.value.block)
  }

  /** Every hop the contract accepts from a CKB match is a move of the ideal law,
      leads to the match that the law predicts, and keeps the terms. */
  lemma HopRefines(c: LiveCell, hop: Hop)
    requires IsCkbMatch(c) && Accepted(c, hop)
    ensures Allowed(Abs(c), MoveOf(c, hop))
    ensures hop.next.Some? ==>
              KeepsTerms(c, hop.next.value) && Abs(hop.next.value) == After(Abs(c), MoveOf(c, hop))
  {
    hide StateOf, Verify;
    if hop.next.Some? {
      UpdateExact(hop.tx, c, hop.next.value);
    } else {
      DestroyExact(hop.tx, c);
    }
  }

  function Moves(c: LiveCell, hops: seq<Hop>): seq<Move>
    requires IsCkbMatch(c) && Run(c, hops)
    decreases |hops|
  {
    if hops == [] then [] else
      HopRefines(c, hops[0]);
      [MoveOf(c, hops[0])] + (if hops[0].next.None? then [] else Moves(hops[0].next.value, hops[1..]))
  }

  lemma {:induction false} RunRefines(c: LiveCell, hops: seq<Hop>)
    requires IsCkbMatch(c) && Run(c, hops)
    ensures AllowedRun(Abs(c), Moves(c, hops))
    ensures KeepsTerms(c, Last(c, hops)) && End(Abs(c), Moves(c, hops)) == Abs(Last(c, hops))
    decreases |hops|
  {
    hide StateOf, Verify;
    if hops != [] {
      HopRefines(c, hops[0]);
      if hops[0].next.Some? {
        RunRefines(hops[0].next.value, hops[1..]);
        assert Moves(c, hops)[1..] == Moves(hops[0].next.value, hops[1..]);
      } else {
        assert Moves(c, hops)[1..] == [];
      }
    }
  }

  // ---------------------------------------------------------------------------
  // Whole runs of a CKB match
  // ---------------------------------------------------------------------------

  /** Any interleaving of accepted steps, at any tips, conserves the rent pool. */
  lemma RunConservation(c: LiveCell, hops: seq<Hop>)
    requires IsCkbMatch(c) && Run(c, hops)
    ensures var t := Tally(Abs(c), Moves(c, hops));
            && Last(c, hops).cell.Unoccupied() + t.extracted == c.cell.Unoccupied() + t.buyerNet + t.sellerAdded
            && t.extracted == Abs(c).rate * t.elapsed
  {
    hide StateOf, Verify;
    RunRefines(c, hops);
    Conservation(Abs(c), Moves(c, hops));
  }

  /** The total extracted is the rate times the distance from the base of the cell
      that the first extraction consumed to the final clock, exactly when no tip lies
      behind its base. Then it is at most the rate times the distance from the base
      of the first cell, which for a fresh match is the block that created it. */
  lemma RunTelescoping(c: LiveCell, hops: seq<Hop>, s: MatchState, run: seq<Move>)
    requires IsCkbMatch(c) && Run(c, hops) && s == Abs(c) && run == Moves(c, hops)
    requires PositiveTips(run) && HasExtract(run)
    ensures IsMatch(Last(c, hops)) && Abs(Last(c, hops)) == End(s, run)
    ensures var t := Tally(s, run); var clock := End(s, run).last;
            && (t.extracted == s.rate * (clock - FirstBase(s, run)) <==> s.rate == 0 || t.rewound == 0)
            && (t.rewound == 0 ==> t.extracted <= s.rate * (clock - s.Base()))
            && s.Base() <= FirstBase(s, run)
  {
    hide StateOf, Verify;
    RunRefines(c, hops);
    Telescoping(s, run);
  }

  /** With no hypothesis on tips, what was extracted is the rate times the advance of
      the base, corrected by the blocks carried and rewound. */
  lemma RunBaseLaw(c: LiveCell, hops: seq<Hop>)
    requires IsCkbMatch(c) && Run(c, hops)
    ensures IsMatch(Last(c, hops))
    ensures var t := Tally(Abs(c), Moves(c, hops)); var advance := Abs(Last(c, hops)).Base() - Abs(c).Base();
            && t.extracted == Abs(c).rate * (advance - t.carried + t.rewound)
            && (t.extracted == Abs(c).rate * advance <==> Abs(c).rate == 0 || t.carried == t.rewound)
  {
    hide StateOf, Verify;
    RunRefines(c, hops);
    BaseLaw(Abs(c), Moves(c, hops));
    Conservation(Abs(c), Moves(c, hops));
  }

  /** Every accepted run that ends with a seller step pays the rate times the blocks
      charged, as far as the funds go. */
  lemma RunPayout(c: LiveCell, hops: seq<Hop>, s: MatchState, run: seq<Move>)
    requires IsCkbMatch(c) && Run(c, hops) && s == Abs(c) && run == Moves(c, hops)
    requires run != [] && !run[|run| - 1].Buyer?
    ensures Charged(s, run, Reach(s, run)) >= 0 && Funds(s, run) >= 0
    ensures Payout(s, run) == Min(Funds(s, run), s.rate * Charged(s, run, Reach(s, run)))
  {
    hide StateOf, Verify, Moves;
    RunRefines(c, hops);
    PayoutLaw(s, run);
  }

  /** At positive tips that is what the last tip alone calls for exactly when the blocks
      rewound are only those by which the end lies behind the first base, or the funds
      run out. */
  lemma RunPathIndependenceExact(c: LiveCell, hops: seq<Hop>, s: MatchState, run: seq<Move>)
    requires IsCkbMatch(c) && Run(c, hops) && s == Abs(c) && run == Moves(c, hops)
    requires run != [] && !run[|run| - 1].Buyer? && PositiveTips(run)
    ensures Funds(s, run) >= 0
    ensures var due := s.rate * Minus(Reach(s, run), FirstBase(s, run));
            Payout(s, run) == Min(Funds(s, run), due) <==>
              || s.rate == 0 || Funds(s, run) <= due
              || Tally(s, run).rewound == Minus(FirstBase(s, run), Reach(s, run))
  {
    hide StateOf, Verify, Moves;
    RunRefines(c, hops);
    PathIndependenceExact(s, run);
  }

  /** At good tips it always is, whatever either party puts in or takes out. */
  lemma RunPayoutAtGoodTips(c: LiveCell, hops: seq<Hop>, s: MatchState, run: seq<Move>)
    requires IsCkbMatch(c) && Run(c, hops) && s == Abs(c) && run == Moves(c, hops)
    requires run != [] && !run[|run| - 1].Buyer? && GoodTips(s, run)
    ensures var T := run[|run| - 1].tip;
            && T >= FirstBase(s, run) && Funds(s, run) >= 0
            && Payout(s, run) == Min(Funds(s, run), s.rate * (T - FirstBase(s, run)))
  {
    hide StateOf, Verify, Moves;
    RunRefines(c, hops);
    PayoutAtGoodTips(s, run);
  }

  /** With the schedule undisturbed, the seller's total depends on the last tip alone. */
  lemma RunPathIndependence(c: LiveCell, hops: seq<Hop>)
    requires IsCkbMatch(c) && Run(c, hops) && hops != []
    requires Undisturbed(Abs(c), Moves(c, hops))
    ensures var T := TipOf(hops[|hops| - 1].tx);
            T >= Abs(c).Base() && Payout(Abs(c), Moves(c, hops)) == Min(c.cell.Unoccupied(), Abs(c).Rent(T))
  {
    hide StateOf, Verify;
    RunRefines(c, hops);
    LastMove(c, hops);
    PathIndependence(Abs(c), Moves(c, hops));
    var m := Moves(c, hops)[|hops| - 1];
    assert m in Moves(c, hops) && !m.Buyer?;
  }

  lemma {:induction false} LastMove(c: LiveCell, hops: seq<Hop>)
    requires IsCkbMatch(c) && Run(c, hops) && hops != []
    ensures |Moves(c, hops)| == |hops|
    ensures var m := Moves(c, hops)[|hops| - 1]; !m.Buyer? ==> m.tip == TipOf(hops[|hops| - 1].tx)
    decreases |hops|
  {
    hide StateOf, Verify;
    HopRefines(c, hops[0]);
    if hops[0].next.Some? {
      var rest := Moves(hops[0].next.value, hops[1..]);
      assert Moves(c, hops) == [MoveOf(c, hops[0])] + rest;
      if |hops| > 1 {
        LastMove(hops[0].next.value, hops[1..]);
        assert Moves(c, hops)[|hops| - 1] == rest[|hops| - 2] && hops[|hops| - 1] == hops[1..][|hops| - 2];
      }
    }
  }

  /** By block `T` the seller's take is the rate times the blocks charged, as far as
      the funds go. It stays within what the first match would owe at `T` exactly when
      no more blocks are rewound than carried, or the funds do. */
  lemma RunEntitlement(c: LiveCell, hops: seq<Hop>, s: MatchState, run: seq<Move>, T: nat)
    requires IsCkbMatch(c) && Run(c, hops) && s == Abs(c) && run == Moves(c, hops)
    requires T >= End(s, run).Base()
    ensures IsMatch(Last(c, hops)) && Abs(Last(c, hops)) == End(s, run)
    ensures Charged(s, run, T) >= 0 && Funds(s, run) >= 0
    ensures var t, owed := Tally(s, run), s.Rent(T);
            var sum, slack := t.extracted + Abs(Last(c, hops)).Rent(T), t.carried + Minus(s.Base(), T);
            && sum == s.rate * Charged(s, run, T)
            && (sum <= owed <==> s.rate == 0 || t.rewound <= slack)
            && (sum == owed <==> s.rate == 0 || t.rewound == slack)
            && Take(s, run, T) == Min(Funds(s, run), sum)
            && (Take(s, run, T) <= owed <==> s.rate == 0 || t.rewound <= slack || Funds(s, run) <= owed)
    ensures NeverBack(s, run) <==> Tally(s, run).rewound == 0
  {
    hide StateOf, Verify, Moves;
    RunRefines(c, hops);
    TakeLaw(s, run, T);
    EntitlementExact(s, run, T);
    RewoundExact(s, run);
  }

  /** At good tips no schedule of the seller and no step of the buyer raises what the
      seller can have extracted by block `T`. */
  lemma RunEntitlementAtGoodTips(c: LiveCell, hops: seq<Hop>, T: nat)
    requires IsCkbMatch(c) && Run(c, hops) && GoodTips(Abs(c), Moves(c, hops))
    requires End(Abs(c), Moves(c, hops)).last <= T
    ensures IsMatch(Last(c, hops))
    ensures var paid := Tally(Abs(c), Moves(c, hops)).extracted;
            && paid + Abs(Last(c, hops)).Rent(T) <= Abs(c).Rent(T)
            && (DataOf(c).lastExtractionBlock > 0 || !HasBuyer(Moves(c, hops))
                ==> paid + Abs(Last(c, hops)).Rent(T) == Abs(c).Rent(T))
  {
    hide StateOf, Verify;
    RunRefines(c, hops);
    Entitlement(Abs(c), Moves(c, hops), T);
  }

  /** A run holds finitely many paid extractions, bounded by the funds put in. */
  lemma RunBoundedWork(c: LiveCell, hops: seq<Hop>, s: MatchState, run: seq<Move>)
    requires IsCkbMatch(c) && Run(c, hops) && s == Abs(c) && run == Moves(c, hops)
    requires s.rate > 0 && Tally(s, run).paid > 0
    ensures var t := Tally(s, run);
            t.paid <= (s.pool + t.buyerAdded + t.sellerAdded - 1) / s.rate
  {
    hide StateOf, Verify;
    RunRefines(c, hops);
    BoundedWork(s, run);
  }

  /** An accepted seller hop takes exactly the rent; a positive rent leaves a positive
      pool, and the pool grows only when no rent is due. */
  lemma SellerHop(c: LiveCell, hop: Hop)
    requires IsCkbMatch(c) && Accepted(c, hop) && hop.next.Some?
    requires HasInputLock(hop.tx, ArgsOf(c).sellerLockHash)
    ensures hop.tx.headerDeps != [] && IsMatch(hop.next.value)
    ensures var pool, pool', rent := c.cell.Unoccupied(), hop.next.value.cell.Unoccupied(), Abs(c).Rent(hop.tx.headerDeps[0]);
            && Abs(hop.next.value).last == hop.tx.headerDeps[0]
            && (rent > 0 ==> pool' == pool - rent && pool' > 0)
            && (rent == 0 ==> pool' >= pool > 0)
  {
    hide StateOf, Verify;
    UpdateExact(hop.tx, c, hop.next.value);
    ExtractStep(Abs(c), Extract(hop.tx.headerDeps[0], hop.next.value.cell.Unoccupied(), hop.next.value.block));
  }

  /** An accepted buyer hop never raises the rent accrued at any block: it leaves it
      alone once the clock runs, and restarts it at the new cell before that. But the
      buyer may take out what has accrued: what the seller can collect by block `T` is
      kept exactly when the new pool, and the rent now accrued, still cover it. */
  lemma BuyerHop(c: LiveCell, hop: Hop, T: nat)
    requires IsCkbMatch(c) && Accepted(c, hop) && hop.next.Some?
    requires !HasInputLock(hop.tx, ArgsOf(c).sellerLockHash)
    ensures IsMatch(hop.next.value) && HasInputLock(hop.tx, ArgsOf(c).orderArgs.buyerLockHash)
    ensures Abs(hop.next.value).Rent(T) <= Abs(c).Rent(T)
    ensures Abs(hop.next.value).last == Abs(c).last
    ensures if Abs(c).last > 0 then Abs(hop.next.value).Rent(T) == Abs(c).Rent(T)
            else Abs(hop.next.value).Base() == hop.next.value.block
    ensures var pool', rent' := hop.next.value.cell.Unoccupied(), Abs(hop.next.value).Rent(T);
            var due := Min(c.cell.Unoccupied(), Abs(c).Rent(T));
            && (Min(pool', rent') >= due <==> pool' >= due && rent' >= due)
            && (Abs(c).last > 0 ==> (Min(pool', rent') >= due <==> pool' >= due))
  {
    hide StateOf, Verify;
    UpdateExact(hop.tx, c, hop.next.value);
    HopRefines(c, hop);
    BuyerStep(Abs(c), MoveOf(c, hop), T);
    BuyerCollectable(Abs(c), MoveOf(c, hop), T);
  }

  // ---------------------------------------------------------------------------
  // Tokens
  // ---------------------------------------------------------------------------

  /** An accepted hop keeps the token type and amount. */
  lemma HopKeepsTokens(c: LiveCell, hop: Hop)
    requires Accepted(c, hop) && hop.next.Some?
    ensures IsOrder(c) || IsMatch(c)
    ensures ParseXudt(hop.next.value.cell) == ParseXudt(c.cell)
    ensures IsMatch(hop.next.value)
    ensures IsMatch(c) ==> ArgsOf(hop.next.value) == ArgsOf(c)
    ensures IsMatch(c) ==> DataOf(hop.next.value).shannonsPerBlock == DataOf(c).shannonsPerBlock
  {
    hide ParseBranch, ParseXudt, FindOpticrum, LiquidityRent, OrderChannel;
    SoleIsHead(hop.tx, c);
    if IsMatch(c) {
      UpdateRoute(hop.tx, c, hop.next.value);
    } else {
      OrderRoute(hop.tx, c, hop.next.value);
    }
  }

  /** From order to the end, a run keeps token type and amount. */
  lemma {:induction false} TokensConstant(c: LiveCell, hops: seq<Hop>)
    requires Run(c, hops)
    ensures ParseXudt(Last(c, hops).cell) == ParseXudt(c.cell)
    decreases |hops|
  {
    hide StateOf, Verify;
    if hops != [] && hops[0].next.Some? {
      HopKeepsTokens(c, hops[0]);
      TokensConstant(hops[0].next.value, hops[1..]);
    }
  }

  /** The amount that guards a token match is the amount in its match data. */
  lemma TokenAmount(c: LiveCell)
    requires IsMatch(c) && c.cell.typeScript.Some?
    ensures ParseXudt(c.cell) == Some(Xudt(DataOf(c).xudtAmount, c.cell.typeScript.value))
  {
  }

  lemma TokenUpdateVerdict(before: OpticrumState, after: OpticrumState, tx: Transaction, c: LiveCell)
    requires before.branch.Match? && after.branch.Match? && before.xudt.Some? && after.xudt == before.xudt
    requires before.branch.matchArgs == after.branch.matchArgs
    ensures VerifyMatchUpdate(before, Some(after), tx, c).Ok? <==>
            var ma, md, md' := before.branch.matchArgs, before.branch.matchData, after.branch.matchData;
            var seller, buyer := HasInputLock(tx, ma.sellerLockHash), HasInputLock(tx, ma.orderArgs.buyerLockHash);
            var rent := LiquidityRent(before, tx, c);
            && md.shannonsPerBlock == md'.shannonsPerBlock
            && (|| (&& seller && !buyer && ChannelExists(tx, ma.channelOutpoint)
                    && rent.Ok? && before.xudt.value.amount > rent.value
                    && SatSub(before.xudt.value.amount, md'.xudtAmount) == rent.value
                    && HeaderDepNumber(tx, 0) == Ok(md'.lastExtractionBlock))
                || (!seller && buyer && md'.lastExtractionBlock == md.lastExtractionBlock))
  {
    hide LiquidityRent;
  }

  /** `o` has the args, rate and tokens of `c`. */
  predicate KeepsTokenTerms(c: LiveCell, o: LiveCell)
    requires IsMatch(c)
  {
    && IsMatch(o) && ArgsOf(o) == ArgsOf(c) && DataOf(o).shannonsPerBlock == DataOf(c).shannonsPerBlock
    && o.cell.typeScript == c.cell.typeScript && DataOf(o).xudtAmount == DataOf(c).xudtAmount
  }

  /** On a token match an update is accepted exactly when terms and tokens are kept
      and either the seller moves the clock while no rent is due and tokens remain, or
      the buyer keeps the clock. */
  lemma TokenUpdateExact(tx: Transaction, c: LiveCell, o: LiveCell)
    requires Sole(tx, c) && IsMatch(c) && c.cell.typeScript.Some?
    requires FindOpticrum(tx.outputs, c.cell.lock) == Some(o.cell)
    ensures Verify(tx, c.cell.lock).Ok? <==>
            && KeepsTokenTerms(c, o)
            && (|| (&& SellerAlone(tx, c)
                    && ChannelSupplied(tx, c)
                    && HeadersPresent(tx, c)
                    && DataOf(o).lastExtractionBlock == tx.headerDeps[0]
                    && Abs(c).Rent(tx.headerDeps[0]) == 0 && DataOf(c).xudtAmount > 0)
                || (BuyerAlone(tx, c) && DataOf(o).lastExtractionBlock == DataOf(c).lastExtractionBlock))
  {
    hide StateOf, VerifyMatchUpdate, LiquidityRent, Root;
    SoleIsHead(tx, c);
    RentIsIdeal(tx, c);
    UpdateRoute(tx, c, o);
    StateFields(c);
    TokenAmount(c);
    if IsMatch(o) && o.cell.typeScript.Some? {
      TokenAmount(o);
    }
    if IsMatch(o) && ArgsOf(o) == ArgsOf(c) && ParseXudt(o.cell) == ParseXudt(c.cell) {
      StateFields(o);
      TokenUpdateVerdict(StateOf(c.cell).value, StateOf(o.cell).value, tx, c);
    }
  }

  /** Since tokens cannot move, a seller step on a token match is accepted only when
      no rent is due. */
  lemma TokenExtractionIsFree(c: LiveCell, hop: Hop)
    requires IsMatch(c) && c.cell.typeScript.Some? && Accepted(c, hop) && hop.next.Some?
    requires HasInputLock(hop.tx, ArgsOf(c).sellerLockHash)
    ensures hop.tx.headerDeps != [] && Abs(c).Rent(hop.tx.headerDeps[0]) == 0
  {
    hide StateOf, Verify;
    TokenUpdateExact(hop.tx, c, hop.next.value);
  }

  /** A token match is destroyed exactly when the rent, computed without overflow,
      covers its amount. */
  lemma TokenDestroyExact(tx: Transaction, c: LiveCell)
    requires Sole(tx, c) && IsMatch(c) && c.cell.typeScript.Some?
    requires FindOpticrum(tx.outputs, c.cell.lock) == None
    ensures Verify(tx, c.cell.lock).Ok? <==>
            && HasInputLock(tx, ArgsOf(c).sellerLockHash)
            && HeadersPresent(tx, c)
            && DataOf(c).xudtAmount <= Abs(c).Rent(tx.headerDeps[0]) < U64_SPAN
  {
    hide ParseXudt, LiquidityRent, ParseBranch;
    SoleIsHead(tx, c);
    RentIsIdeal(tx, c);
    TokenAmount(c);
  }

  /** So a token match whose amount needs more than 64 bits is never destroyed. */
  lemma {:induction false} LargeTokensStay(c: LiveCell, hops: seq<Hop>)
    requires IsMatch(c) && c.cell.typeScript.Some? && DataOf(c).xudtAmount >= U64_SPAN && Run(c, hops)
    ensures forall hop | hop in hops :: hop.next.Some?
    decreases |hops|
  {
    hide StateOf, Verify, ParseXudt;
    if hops != [] {
      if hops[0].next.None? {
        TokenDestroyExact(hops[0].tx, c);
      }
      var next := hops[0].next.value;
      HopKeepsTokens(c, hops[0]);
      TokenAmount(c);
      TokenTypeKept(c, next);
      TokenAmount(next);
      LargeTokensStay(next, hops[1..]);
      assert forall hop | hop in hops :: hop == hops[0] || hop in hops[1..];
    }
  }

  lemma TokenTypeKept(c: LiveCell, next: LiveCell)
    requires IsMatch(c) && c.cell.typeScript.Some? && IsMatch(next) && ParseXudt(next.cell) == ParseXudt(c.cell)
    ensures next.cell.typeScript == c.cell.typeScript
  {
  }

  // ---------------------------------------------------------------------------
  // Provenance
  // ---------------------------------------------------------------------------

  predicate HoldsTokens(dep: LiveCell, amount: u128) {
    |dep.cell.data| >= XUDT_AMOUNT_LEN && ReadU128(dep.cell.data[..XUDT_AMOUNT_LEN]) >= amount
  }

  /** The code hashes of the Fiber funding lock: testnet, mainnet and mock. */
  predicate RecognisedFunding(h: Bytes32) {
    || h == [
        0x6c, 0x67, 0x88, 0x7f, 0xe2, 0x01, 0xee, 0x0c, 0x78, 0x53, 0xf1, 0x68, 0x2c, 0x0b, 0x77, 0xc0,
        0xe6, 0x21, 0x40, 0x44, 0xc1, 0x56, 0xc7, 0x55, 0x82, 0x69, 0x39, 0x0a, 0x8a, 0xfa, 0x6d, 0x7c]
    || h == [
        0xe4, 0x5b, 0x1f, 0x8f, 0x21, 0xbf, 0xf2, 0x31, 0x37, 0x03, 0x5a, 0x3a, 0xb7, 0x51, 0xd7, 0x5b,
        0x36, 0xa9, 0x81, 0xde, 0xec, 0x3e, 0x78, 0x20, 0x19, 0x4b, 0x9c, 0x04, 0x29, 0x67, 0xf4, 0xf1]
    || h == [
        0x77, 0xc9, 0x16, 0x3a, 0xdd, 0xbf, 0x87, 0xc8, 0x05, 0xbe, 0x3b, 0x6c, 0x85, 0x69, 0xb8, 0xe0,
        0x15, 0xa4, 0xca, 0x0e, 0xf3, 0xc6, 0x89, 0x15, 0x02, 0x34, 0xf0, 0xc8, 0x02, 0xa7, 0x69, 0x00]
  }

  /** The channel dep of a match transaction is what the order asks for. */
  predicate MeetsDemand(dep: LiveCell, order: LiveCell)
    requires IsOrder(order)
  {
    var od := OrderDataOf(order);
    && dep.cell.lock.hashType.Type? && RecognisedFunding(dep.cell.lock.codeHash)
    && (order.cell.typeScript.Some? ==> dep.cell.typeScript == order.cell.typeScript)
    && (if od.xudtAmount > 0 then HoldsTokens(dep, od.xudtAmount) else dep.cell.capacity >= od.channelCapacity)
  }

  /** `m` is the match made from `order` by `tx`. */
  predicate MadeFrom(m: LiveCell, order: LiveCell, tx: Transaction)
    requires IsOrder(order)
  {
    && IsMatch(m)
    && ArgsOf(m).orderArgs == OrderArgsOf(order)
    && DataOf(m) == MatchData(OrderDataOf(order).xudtAmount, OrderDataOf(order).shannonsPerBlock, 0)
    && m.cell.Unoccupied() == order.cell.Unoccupied()
    && HasInputLock(tx, ArgsOf(m).sellerLockHash)
    && exists dep | dep in tx.cellDeps ::
         dep.outPoint == ArgsOf(m).channelOutpoint && MeetsDemand(dep, order) && dep.block > order.block
  }

  /** The lookup finds a dep exactly when the first dep at the outpoint meets what
      the order asks for, creation time aside. */
  lemma OrderChannelExact(order: LiveCell, channel: OutPoint, tx: Transaction)
    requires IsOrder(order)
    ensures OrderChannel(OrderDataOf(order), ParseXudt(order.cell), channel, tx) ==
            var found := FindAt(tx.cellDeps, channel);
            if found.Some? && MeetsDemand(found.value, order) then found else None
  {
    assert |order.cell.data| == ORDER_DATA_LEN;
  }

  /** The six checks of an order match, on parsed states. */
  lemma OrderMatchExact(before: OpticrumState, after: OpticrumState, tx: Transaction, c: LiveCell)
    requires before.branch.Order? && after.branch.Match?
    ensures VerifyOrderMatch(before, Some(after), tx, c).Ok? <==>
            var od, ma, md := before.branch.orderData, after.branch.matchArgs, after.branch.matchData;
            var channel := OrderChannel(od, before.xudt, ma.channelOutpoint, tx);
            && channel.Some?
            && HasInputLock(tx, ma.sellerLockHash)
            && md == MatchData(od.xudtAmount, od.shannonsPerBlock, 0)
            && before.unoccupiedCapacity == after.unoccupiedCapacity
            && c.block in tx.headerDeps && channel.value.block in tx.headerDeps
            && channel.value.block > c.block
  {
    hide OrderChannel;
  }

  lemma OrderRoute(tx: Transaction, c: LiveCell, m: LiveCell)
    requires IsOrder(c) && FindOpticrum(tx.outputs, c.cell.lock) == Some(m.cell)
    ensures if IsMatch(m) && ArgsOf(m).orderArgs == OrderArgsOf(c) && ParseXudt(m.cell) == ParseXudt(c.cell)
            then Root(tx, c) == Ok(Routed(StateOf(c.cell).value, Some(StateOf(m.cell).value), OrderMatch))
            else !Root(tx, c).Ok?
  {
    hide ParseBranch, ParseXudt, FindOpticrum;
    if StateOf(m.cell).Ok? {
      assert NewState(tx, c.cell.lock) == Ok(Some(StateOf(m.cell).value));
    }
  }

  /** Without an Opticrum output, spending an order needs the buyer and nothing else. */
  lemma CancelExact(tx: Transaction, c: LiveCell)
    requires IsOrder(c) && Sole(tx, c) && FindOpticrum(tx.outputs, c.cell.lock) == None
    ensures Verify(tx, c.cell.lock).Ok? <==> HasInputLock(tx, OrderArgsOf(c).buyerLockHash)
  {
    hide ParseBranch, ParseXudt, FindOpticrum;
    SoleIsHead(tx, c);
  }

  lemma OrderHop(c: LiveCell, hop: Hop)
    requires IsOrder(c) && Accepted(c, hop)
    ensures match hop.next
            case None => HasInputLock(hop.tx, OrderArgsOf(c).buyerLockHash)
            case Some(m) => MadeFrom(m, c, hop.tx)
  {
    hide Root, VerifyOrderMatch, OrderChannel, RecognisedFunding, HoldsTokens;
    SoleIsHead(hop.tx, c);
    if hop.next.None? {
      CancelExact(hop.tx, c);
    } else {
      var m := hop.next.value;
      OrderRoute(hop.tx, c, m);
      OrderMatchExact(StateOf(c.cell).value, StateOf(m.cell).value, hop.tx, c);
      OrderChannelExact(c, ArgsOf(m).channelOutpoint, hop.tx);
      var i := FindAtFacts(hop.tx.cellDeps, ArgsOf(m).channelOutpoint);
    }
  }

  /** In every state a run reaches from an order after its first hop, the cell is a
      match with the order's buyer, key and rate and with the channel and seller fixed
      when it was made; the channel qualified. The first hop, if it leaves no match,
      is a cancel by the buyer. No run returns to an order. */
  lemma Provenance(c: LiveCell, hops: seq<Hop>)
    requires IsOrder(c) && Run(c, hops) && hops != []
    ensures match hops[0].next
            case None => |hops| == 1 && HasInputLock(hops[0].tx, OrderArgsOf(c).buyerLockHash)
            case Some(m) =>
              && MadeFrom(m, c, hops[0].tx)
              && IsMatch(Last(c, hops))
              && ArgsOf(Last(c, hops)) == ArgsOf(m)
              && ArgsOf(Last(c, hops)).orderArgs == OrderArgsOf(c)
              && DataOf(Last(c, hops)).shannonsPerBlock == OrderDataOf(c).shannonsPerBlock
  {
    hide StateOf, Verify;
    OrderHop(c, hops[0]);
    if hops[0].next.Some? {
      MatchKeepsTerms(hops[0].next.value, hops[1..]);
    }
  }

  lemma {:induction false} MatchKeepsTerms(c: LiveCell, hops: seq<Hop>)
    requires IsMatch(c) && Run(c, hops)
    ensures IsMatch(Last(c, hops)) && ArgsOf(Last(c, hops)) == ArgsOf(c)
    ensures DataOf(Last(c, hops)).shannonsPerBlock == DataOf(c).shannonsPerBlock
    decreases |hops|
  {
    hide StateOf, Verify;
    if hops != [] && hops[0].next.Some? {
      HopKeepsTokens(c, hops[0]);
      MatchKeepsTerms(hops[0].next.value, hops[1..]);
    }
  }

  /** Every cell along a run is the last cell of a shorter run, so what holds of the
      last cell of every run holds of every cell. */
  lemma {:induction false} Prefixes(c: LiveCell, hops: seq<Hop>, k: nat)
    requires Run(c, hops) && k < |hops| && hops[k].next.Some?
    ensures Run(c, hops[..k + 1]) && Last(c, hops[..k + 1]) == hops[k].next.value
    decreases |hops|
  {
    hide StateOf, Verify;
    assert hops[..k + 1][0] == hops[0];
    if k == 0 {
      assert hops[..1][1..] == [];
      assert Run(hops[0].next.value, []) && Last(hops[0].next.value, []) == hops[0].next.value;
    } else {
      Prefixes(hops[0].next.value, hops[1..], k - 1);
      assert hops[..k + 1][1..] == hops[1..][..k];
    }
  }
}
