// The converse of refinement: every run that the rent law allows, and that fits the
// machine's integers, is played by accepted transactions.
module Realization {
  import opened Machine
  import opened Protocol
  import opened Cells
  import opened State
  import opened Verifiers
  import opened Ledger
  import opened Runs

  /** Cells of both parties, and a cell at the channel's outpoint. */
  datatype Cast = Cast(seller: LiveCell, buyer: LiveCell, channel: LiveCell)

  predicate Plays(cast: Cast, c: LiveCell)
    requires IsMatch(c)
  {
    var seller, buyer := ArgsOf(c).sellerLockHash, ArgsOf(c).orderArgs.buyerLockHash;
    && cast.seller.lockHash == seller && cast.buyer.lockHash == buyer && seller != buyer
    && c.lockHash != seller && c.lockHash != buyer
    && cast.seller.cell.lock != c.cell.lock && cast.buyer.cell.lock != c.cell.lock
    && cast.channel.outPoint == ArgsOf(c).channelOutpoint
    && c.cell.lock.hashType.Type?
  }

  /** What a CKB match with 32-byte data occupies. */
  const MATCH_OCCUPIED: int := (8 + 33 + MATCH_ARGS_LEN + MATCH_DATA_LEN) * CKB_DECIMAL

  predicate FitsMove(s: MatchState, m: Move) {
    match m
    case Extract(tip, pool, block) => tip < U64_SPAN && pool + MATCH_OCCUPIED < U64_SPAN && block < U64_SPAN
    case Buyer(pool, block) => pool + MATCH_OCCUPIED < U64_SPAN && block < U64_SPAN
    case Destroy(tip) => tip < U64_SPAN && s.Rent(tip) < U64_SPAN
  }

  /** Every number of a run fits its machine type, the rent of a destroy included. */
  predicate Fits(s: MatchState, run: seq<Move>)
    decreases |run|
  {
    run == [] || (FitsMove(s, run[0]) && Fits(After(s, run[0]), run[1..]))
  }

  // ---------------------------------------------------------------------------
  // One step
  // ---------------------------------------------------------------------------

  function Successor(c: LiveCell, pool: nat, clock: u64, block: u64): LiveCell
    requires IsMatch(c) && pool + MATCH_OCCUPIED < U64_SPAN
  {
    var data := DataOf(c).(lastExtractionBlock := clock);
    LiveCell(c.outPoint, Cell(pool + MATCH_OCCUPIED, c.cell.lock, None, data.ToBytes()), c.lockHash, block)
  }

  function HopFor(cast: Cast, c: LiveCell, m: Move): Hop
    requires IsMatch(c) && FitsMove(Abs(c), m)
  {
    match m
    case Extract(tip, pool, block) =>
      var n := Successor(c, pool, tip, block);
      Hop(Transaction([cast.channel], [tip, c.block], [c, cast.seller], [n.cell]), Some(n))
    case Buyer(pool, block) =>
      var n := Successor(c, pool, DataOf(c).lastExtractionBlock, block);
      Hop(Transaction([], [], [c, cast.buyer], [n.cell]), Some(n))
    case Destroy(tip) =>
      Hop(Transaction([], [tip, c.block], [c, cast.seller], []), None)
  }

  lemma SuccessorIsMatch(cast: Cast, c: LiveCell, pool: nat, clock: u64, block: u64)
    requires IsCkbMatch(c) && Plays(cast, c) && pool + MATCH_OCCUPIED < U64_SPAN
    ensures var n := Successor(c, pool, clock, block);
            && KeepsTerms(c, n) && Plays(cast, n)
            && n.cell.Unoccupied() == pool && DataOf(n).lastExtractionBlock == clock
  {
    var n, data := Successor(c, pool, clock, block), DataOf(c).(lastExtractionBlock := clock);
    MatchDataRoundTrip(data, []);
    assert data.ToBytes() + [] == data.ToBytes();
    ParsersAreExact(c.cell.lock.args);
  }

  /** The parties' signatures in a transaction that spends the match and one other cell. */
  lemma Signatures(tx: Transaction, c: LiveCell, party: LiveCell, other: Bytes32)
    requires tx.inputs == [c, party] && party.cell.lock != c.cell.lock
    requires c.lockHash != other && party.lockHash != other
    ensures Sole(tx, c) && HasInputLock(tx, party.lockHash) && !HasInputLock(tx, other)
  {
    assert tx.inputs[0] in tx.inputs && tx.inputs[1] in tx.inputs;
  }

  /** Every move the law allows and that fits is made by an accepted transaction. */
  lemma HopPlays(cast: Cast, c: LiveCell, m: Move)
    requires IsCkbMatch(c) && Plays(cast, c) && Allowed(Abs(c), m) && FitsMove(Abs(c), m)
    ensures var hop := HopFor(cast, c, m);
            && Accepted(c, hop) && MoveOf(c, hop) == m
            && (hop.next.None? <==> m.Destroy?)
            && (hop.next.Some? ==> IsMatch(hop.next.value) && Plays(cast, hop.next.value))
  {
    hide StateOf, Verify;
    var hop := HopFor(cast, c, m);
    var tx := hop.tx;
    match m {
      case Extract(tip, pool, block) =>
        SuccessorIsMatch(cast, c, pool, tip, block);
        Signatures(tx, c, cast.seller, cast.buyer.lockHash);
        assert cast.channel in tx.cellDeps && tx.headerDeps[1] in tx.headerDeps;
        UpdateExact(tx, c, hop.next.value);
      case Buyer(pool, block) =>
        SuccessorIsMatch(cast, c, pool, DataOf(c).lastExtractionBlock, block);
        Signatures(tx, c, cast.buyer, cast.seller.lockHash);
        UpdateExact(tx, c, hop.next.value);
      case Destroy(tip) =>
        Signatures(tx, c, cast.seller, cast.buyer.lockHash);
        assert tx.headerDeps[1] in tx.headerDeps;
        DestroyExact(tx, c);
    }
  }

  // ---------------------------------------------------------------------------
  // Whole runs
  // ---------------------------------------------------------------------------

  lemma {:induction false} Realize(cast: Cast, c: LiveCell, run: seq<Move>) returns (hops: seq<Hop>)
    requires IsCkbMatch(c) && Plays(cast, c) && AllowedRun(Abs(c), run) && Fits(Abs(c), run)
    ensures Run(c, hops) && Moves(c, hops) == run
    decreases |run|
  {
    hide StateOf, Verify, Plays, FitsMove, Allowed, Accepted, MoveOf, HopFor;
    if run == [] {
      hops := [];
    } else {
      var m := run[0];
      HopPlays(cast, c, m);
      var hop := HopFor(cast, c, m);
      HopRefines(c, hop);
      if m.Destroy? {
        hops := [hop];
        assert run == [m];
      } else {
        var rest := Realize(cast, hop.next.value, run[1..]);
        hops := [hop] + rest;
        assert hops[1..] == rest && run == [m] + run[1..];
      }
    }
  }

  lemma {:induction false} MovesFit(c: LiveCell, hops: seq<Hop>)
    requires IsCkbMatch(c) && Run(c, hops)
    ensures Fits(Abs(c), Moves(c, hops))
    decreases |hops|
  {
    hide StateOf, Verify;
    if hops != [] {
      HopRefines(c, hops[0]);
      if hops[0].next.Some? {
        var n := hops[0].next.value;
        SuccessorSize(n);
        MovesFit(n, hops[1..]);
        assert Moves(c, hops)[1..] == Moves(n, hops[1..]);
      } else {
        DestroyExact(hops[0].tx, c);
        assert Moves(c, hops)[1..] == [];
      }
    }
  }

  lemma SuccessorSize(n: LiveCell)
    requires IsCkbMatch(n)
    ensures n.cell.Unoccupied() + MATCH_OCCUPIED < U64_SPAN
  {
    ParsersAreExact(n.cell.lock.args);
    ParsersAreExact(n.cell.data);
  }

  /** The accepted runs of a CKB match are exactly the runs that the rent law allows
      and that fit. */
  lemma AcceptedIsAllowed(cast: Cast, c: LiveCell, run: seq<Move>)
    requires IsCkbMatch(c) && Plays(cast, c)
    ensures (exists hops :: Run(c, hops) && Moves(c, hops) == run) <==> AllowedRun(Abs(c), run) && Fits(Abs(c), run)
  {
    hide Run, Moves, AllowedRun, Fits, Plays, Abs, StateOf;
    if AllowedRun(Abs(c), run) && Fits(Abs(c), run) {
      var hops := Realize(cast, c, run);
    }
    forall hops | Run(c, hops) && Moves(c, hops) == run
      ensures AllowedRun(Abs(c), run) && Fits(Abs(c), run)
    {
      RunRefines(c, hops);
      MovesFit(c, hops);
    }
  }
}
