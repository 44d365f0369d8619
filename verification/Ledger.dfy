// The rent law over unbounded integers: the state machine of one CKB match and
// the theorems about whole runs of it.
module Ledger {

  function Minus(a: nat, b: nat): nat {
    if a >= b then a - b else 0
  }

  function Min(a: int, b: int): int {
    if a <= b then a else b
  }

  /** `last` is the extraction clock, 0 until the first extraction; `block` is
      where the cell was created. */
  datatype MatchState = MatchState(pool: nat, rate: nat, last: nat, block: nat) {
    function Base(): nat { if last == 0 then block else last }

    function Elapsed(tip: nat): nat { Minus(tip, Base()) }

    function Rent(tip: nat): nat { rate * Elapsed(tip) }

    predicate Exhausted(tip: nat) { pool <= Rent(tip) }
  }

  /** What a transaction does to a match: the seller extracts or destroys at a tip,
      or the buyer sets a new pool. `pool` and `block` describe the cell produced. */
  datatype Move =
    | Extract(tip: nat, pool: nat, block: nat)
    | Buyer(pool: nat, block: nat)
    | Destroy(tip: nat)

  predicate Allowed(s: MatchState, m: Move) {
    match m
    case Extract(tip, pool, block) =>
      s.block <= block && !s.Exhausted(tip) && Minus(s.pool, pool) == s.Rent(tip)
    case Buyer(_, block) => s.block <= block
    case Destroy(tip) => s.Exhausted(tip)
  }

  function After(s: MatchState, m: Move): MatchState {
    match m
    case Extract(tip, pool, block) => MatchState(pool, s.rate, tip, block)
    case Buyer(pool, block) => MatchState(pool, s.rate, s.last, block)
    case Destroy(_) => s
  }

  /** A destroy ends its run. */
  predicate AllowedRun(s: MatchState, run: seq<Move>)
    decreases |run|
  {
    run == [] || (Allowed(s, run[0]) && (if run[0].Destroy? then |run| == 1 else AllowedRun(After(s, run[0]), run[1..])))
  }

  /** The last match of a run: the one still live, or the one destroyed. */
  function End(s: MatchState, run: seq<Move>): MatchState
    decreases |run|
  {
    if run == [] then s else End(After(s, run[0]), run[1..])
  }

  /** Totals over a run, measured on the pools of the cells themselves.
      - extracted: what seller steps took out of pools
      - sellerAdded: what seller steps put into pools
      - buyerNet, buyerAdded: signed and positive pool changes of buyer steps
      - swept: the pool a destroy took
      - elapsed: blocks paid for, counting only tips past their base
      - rewound: blocks by which tips lay behind their base
      - carried: blocks by which a step moved the base to the cell it creates, because
        the clock is 0
      - paid: number of extractions with positive rent */
  datatype Totals = Totals(extracted: nat, sellerAdded: nat, buyerNet: int, buyerAdded: nat,
                           swept: nat, elapsed: nat, rewound: nat, carried: nat, paid: nat)

  function Tally(s: MatchState, run: seq<Move>): Totals
    decreases |run|
  {
    if run == [] then Totals(0, 0, 0, 0, 0, 0, 0, 0, 0) else
      var t := Tally(After(s, run[0]), run[1..]);
      match run[0]
      case Extract(tip, pool, _) =>
        t.(extracted := t.extracted + Minus(s.pool, pool),
        sellerAdded := t.sellerAdded + Minus(pool, s.pool),
        elapsed := t.elapsed + s.Elapsed(tip),
        rewound := t.rewound + Minus(s.Base(), tip),
        carried := t.carried + Minus(After(s, run[0]).Base(), tip),
        paid := t.paid + (if s.Rent(tip) > 0 then 1 else 0))
      case Buyer(pool, _) =>
        t.(buyerNet := t.buyerNet + pool - s.pool, buyerAdded := t.buyerAdded + Minus(pool, s.pool),
        carried := t.carried + Minus(After(s, run[0]).Base(), s.Base()))
      case Destroy(_) =>
        t.(swept := t.swept + s.pool)
  }

  /** The tips a seller client supplies: positive and not behind the base. */
  predicate GoodTips(s: MatchState, run: seq<Move>)
    decreases |run|
  {
    run == [] || (
      && (run[0].Extract? || run[0].Destroy? ==> run[0].tip > 0 && run[0].tip >= s.Base())
      && GoodTips(After(s, run[0]), run[1..]))
  }

  predicate PositiveTips(run: seq<Move>) {
    forall m | m in run && m.Extract? :: m.tip > 0
  }

  predicate HasExtract(run: seq<Move>) {
    exists m | m in run :: m.Extract?
  }

  predicate HasBuyer(run: seq<Move>) {
    exists m | m in run :: m.Buyer?
  }

  /** A schedule of seller steps at good tips that puts nothing into the pool. */
  predicate Undisturbed(s: MatchState, run: seq<Move>) {
    GoodTips(s, run) && !HasBuyer(run) && Tally(s, run).sellerAdded == 0
  }

  /** No extraction looks back behind the base of the match it spends. */
  predicate NeverBack(s: MatchState, run: seq<Move>)
    decreases |run|
  {
    run == [] || ((run[0].Extract? ==> run[0].tip >= s.Base()) && NeverBack(After(s, run[0]), run[1..]))
  }

  /** Base of the state that the first extraction of a run consumes. */
  function FirstBase(s: MatchState, run: seq<Move>): nat
    decreases |run|
  {
    if run == [] || run[0].Extract? then s.Base() else FirstBase(After(s, run[0]), run[1..])
  }

  // ---------------------------------------------------------------------------
  // Conservation
  // ---------------------------------------------------------------------------

  lemma Distribute(rate: nat, a: nat, b: nat)
    ensures rate * (a + b) == rate * a + rate * b
  {
  }

  lemma MulMono(a: nat, b: nat, d: nat)
    ensures a <= b ==> a * d <= b * d
    ensures (a + 1) * d == a * d + d
  {
    if a <= b {
      Distribute(d, a, b - a);
    }
  }

  /** A seller step takes exactly the rent, and adds to the pool only when no rent
      is due; what is left after a positive rent is positive. */
  lemma ExtractStep(s: MatchState, m: Move)
    requires m.Extract? && Allowed(s, m)
    ensures Minus(s.pool, m.pool) == s.Rent(m.tip)
    ensures m.pool > s.pool ==> s.Rent(m.tip) == 0
    ensures s.Rent(m.tip) > 0 ==> m.pool == s.pool - s.Rent(m.tip) > 0
  {
  }

  /** Whatever the tips, nothing is created or lost: the final pool plus what was
      extracted is the initial pool plus what both parties put in, and what was
      extracted is the rate times the blocks past each base. */
  lemma {:induction false} Conservation(s: MatchState, run: seq<Move>)
    requires AllowedRun(s, run)
    ensures var t := Tally(s, run);
            && End(s, run).pool + t.extracted == s.pool + t.buyerNet + t.sellerAdded
            && t.extracted == s.rate * t.elapsed
            && End(s, run).rate == s.rate
    decreases |run|
  {
    if run != [] && !run[0].Destroy? {
      var rest := Tally(After(s, run[0]), run[1..]);
      Conservation(After(s, run[0]), run[1..]);
      if run[0].Extract? {
        ExtractStep(s, run[0]);
        Distribute(s.rate, rest.elapsed, s.Elapsed(run[0].tip));
      }
    } else if run != [] {
      assert run[1..] == [];
    }
  }

  // ---------------------------------------------------------------------------
  // Telescoping and path independence
  // ---------------------------------------------------------------------------

  /** The blocks paid for telescope to the distance the clock moved, up to the
      blocks by which tips lay behind the clock. So the total extracted is the rate
      times that distance exactly when no tip lies behind its base. */
  lemma Telescoping(s: MatchState, run: seq<Move>)
    requires AllowedRun(s, run) && PositiveTips(run) && HasExtract(run)
    ensures var t := Tally(s, run); var e := End(s, run);
            && t.elapsed == e.last - FirstBase(s, run) + t.rewound
            && (t.extracted == s.rate * (e.last - FirstBase(s, run)) <==> s.rate == 0 || t.rewound == 0)
            && s.Base() <= FirstBase(s, run)
            && (t.rewound == 0 ==> t.extracted <= s.rate * (e.last - s.Base()))
    ensures s.last > 0 ==> FirstBase(s, run) == s.Base()
  {
    hide AllowedRun, Tally, End, FirstBase, PositiveTips;
    BaseAdvances(s, run);
    FirstBaseIsCarried(s, run);
    Conservation(s, run);
    var t, clock := Tally(s, run), End(s, run).last - FirstBase(s, run);
    Scaled(s.rate, t.elapsed, clock, t.rewound);
    if t.rewound == 0 {
      Distribute(s.rate, clock, FirstBase(s, run) - s.Base());
    }
  }

  /** Without any hypothesis on tips: the base advances by the blocks paid for and
      the blocks carried, less the blocks rewound. So what was extracted is the rate
      times the advance of the base exactly when what was carried was rewound. */
  lemma BaseLaw(s: MatchState, run: seq<Move>)
    requires AllowedRun(s, run)
    ensures var t := Tally(s, run);
            && End(s, run).Base() - s.Base() == t.elapsed + t.carried - t.rewound
            && (t.extracted == s.rate * (End(s, run).Base() - s.Base()) <==> s.rate == 0 || t.carried == t.rewound)
  {
    BaseAdvances(s, run);
    Conservation(s, run);
    var t, advance := Tally(s, run), End(s, run).Base() - s.Base();
    if t.carried >= t.rewound {
      Scaled(s.rate, advance, t.elapsed, t.carried - t.rewound);
    } else {
      Scaled(s.rate, t.elapsed, advance, t.rewound - t.carried);
    }
  }

  lemma {:induction false} BaseAdvances(s: MatchState, run: seq<Move>)
    requires AllowedRun(s, run)
    ensures var t := Tally(s, run); End(s, run).Base() - s.Base() == t.elapsed + t.carried - t.rewound
    decreases |run|
  {
    if run != [] && !run[0].Destroy? {
      BaseAdvances(After(s, run[0]), run[1..]);
    } else if run != [] {
      assert run[1..] == [];
    }
  }

  /** With positive tips, only buyer steps before the first extraction carry the base. */
  lemma {:induction false} FirstBaseIsCarried(s: MatchState, run: seq<Move>)
    requires AllowedRun(s, run) && PositiveTips(run)
    ensures FirstBase(s, run) == s.Base() + Tally(s, run).carried
    ensures s.last > 0 || !HasBuyer(run) ==> Tally(s, run).carried == 0
    ensures s.last > 0 || HasExtract(run) ==> End(s, run).last > 0
    decreases |run|
  {
    if run != [] {
      assert run[0] in run && forall m | m in run[1..] :: m in run;
      if run[0].Destroy? {
        assert run[1..] == [] && FirstBase(s, run) == FirstBase(s, []);
      } else {
        FirstBaseIsCarried(After(s, run[0]), run[1..]);
        assert HasExtract(run) <==> run[0].Extract? || HasExtract(run[1..]);
      }
    }
  }

  /** Whether a schedule rewinds shows on each of its tips. */
  lemma {:induction false} RewoundExact(s: MatchState, run: seq<Move>)
    requires AllowedRun(s, run)
    ensures Tally(s, run).rewound == 0 <==> NeverBack(s, run)
    decreases |run|
  {
    if run != [] {
      if run[0].Destroy? {
        assert run[1..] == [];
      } else {
        RewoundExact(After(s, run[0]), run[1..]);
      }
    }
  }

  lemma Scaled(rate: nat, a: int, b: int, gap: nat)
    requires a == b + gap
    ensures rate * a == rate * b <==> rate == 0 || gap == 0
  {
    assert rate * a == rate * b + rate * gap;
    if rate > 0 && gap > 0 {
      MulMono(1, gap, rate);
    }
  }

  lemma RentNearBase(s: MatchState, tip: nat)
    requires tip <= s.Base() + 1
    ensures s.Rent(tip) == if tip == s.Base() + 1 then s.rate else 0
  {
    assert s.rate * 1 == s.rate && s.rate * 0 == 0;
  }

  /** A tip behind the clock sets the clock back, and the blocks in between are paid
      for again. From every match with a running clock and more than two rates in its
      pool there is an allowed run that is paid twice what telescopes. */
  lemma OldTipBreaksTelescoping(s: MatchState, block: nat)
    requires s.last > 0 && s.rate > 0 && s.pool > 2 * s.rate && s.block <= block
    ensures var run := BackAndForth(s, block);
            && AllowedRun(s, run) && PositiveTips(run) && HasExtract(run)
            && Tally(s, run).extracted == 2 * s.rate
            && s.rate * (End(s, run).last - FirstBase(s, run)) == s.rate
  {
    var run := BackAndForth(s, block);
    var a, b, c := run[0], run[1], run[2];
    var s1, s2, s3 := After(s, a), After(After(s, a), b), After(After(After(s, a), b), c);
    assert AllowedRun(s3, []) && Tally(s3, []).extracted == 0 && End(s3, []) == s3;
    assert FirstBase(s, run) == s.last;
    hide AllowedRun, Tally, End, FirstBase;
    RentNearBase(s, s.last + 1);
    RentNearBase(s1, s.last);
    RentNearBase(s2, s.last + 1);
    hide MatchState.Rent;
    ExtractFirst(s2, c, []);
    ExtractFirst(s1, b, [c] + []);
    ExtractFirst(s, a, [b] + ([c] + []));
    assert s.rate * 1 == s.rate;
    assert run == [a] + ([b] + ([c] + [])) && a in run;
  }

  /** What a first extraction adds to the run that follows it. */
  lemma ExtractFirst(s: MatchState, m: Move, rest: seq<Move>)
    requires m.Extract? && Allowed(s, m) && AllowedRun(After(s, m), rest)
    ensures AllowedRun(s, [m] + rest) && End(s, [m] + rest) == End(After(s, m), rest)
    ensures Tally(s, [m] + rest).extracted == s.Rent(m.tip) + Tally(After(s, m), rest).extracted
  {
    assert ([m] + rest)[1..] == rest;
  }

  function BackAndForth(s: MatchState, block: nat): seq<Move>
    requires s.pool > 2 * s.rate
  {
    [Extract(s.last + 1, s.pool - s.rate, block), Extract(s.last, s.pool - s.rate, block),
     Extract(s.last + 1, s.pool - 2 * s.rate, block)]
  }

  lemma {:induction false} GoodTipsTelescope(s: MatchState, run: seq<Move>)
    requires AllowedRun(s, run) && GoodTips(s, run)
    ensures PositiveTips(run) && Tally(s, run).rewound == 0
    ensures s.last <= End(s, run).last
    decreases |run|
  {
    if run != [] {
      if run[0].Destroy? {
        assert run[1..] == [];
      } else {
        GoodTipsTelescope(After(s, run[0]), run[1..]);
      }
      assert forall m | m in run :: m == run[0] || m in run[1..];
    }
  }

  /** A buyer step leaves accrued rent alone once the clock runs; before that it
      moves the base forward, and accrued rent never grows. */
  lemma BuyerStep(s: MatchState, m: Move, T: nat)
    requires m.Buyer? && Allowed(s, m)
    ensures After(s, m).Rent(T) <= s.Rent(T)
    ensures s.last > 0 ==> After(s, m).Rent(T) == s.Rent(T)
    ensures s.last == 0 ==> After(s, m).Base() == m.block
  {
    Distribute(s.rate, After(s, m).Elapsed(T), s.Elapsed(T) - After(s, m).Elapsed(T));
  }

  /** What a buyer step leaves to collect by block `T`: at least what there was exactly
      when neither the new pool nor the rent now accrued falls short of it. Once the
      clock runs, only the pool can. */
  lemma BuyerCollectable(s: MatchState, m: Move, T: nat)
    requires m.Buyer? && Allowed(s, m)
    ensures var s' := After(s, m); var due := Min(s.pool, s.Rent(T));
            && (Min(s'.pool, s'.Rent(T)) >= due <==> m.pool >= due && s'.Rent(T) >= due)
            && (s.last > 0 ==> (Min(s'.pool, s'.Rent(T)) >= due <==> m.pool >= due))
  {
    BuyerStep(s, m, T);
  }

  // ---------------------------------------------------------------------------
  // What the seller gets
  // ---------------------------------------------------------------------------

  /** What the seller has been paid: extractions and a final sweep. */
  function Payout(s: MatchState, run: seq<Move>): nat {
    Tally(s, run).extracted + Tally(s, run).swept
  }

  /** What the seller has extracted, and could still collect by block `T`. */
  function Take(s: MatchState, run: seq<Move>, T: nat): nat {
    Tally(s, run).extracted + Min(End(s, run).pool, End(s, run).Rent(T))
  }

  /** All that was in the pool and that the parties put in, less what the buyer took. */
  function Funds(s: MatchState, run: seq<Move>): int {
    s.pool + Tally(s, run).buyerNet + Tally(s, run).sellerAdded
  }

  /** Blocks charged by block `T`: those since the first base, less the blocks
      carried, and the blocks rewound once more. */
  function Charged(s: MatchState, run: seq<Move>, T: nat): int {
    T - s.Base() - Tally(s, run).carried + Tally(s, run).rewound
  }

  /** For every allowed run: extracted plus accrued is the rate times the blocks
      charged, and the seller's take is that much, as far as the funds go. */
  lemma TakeLaw(s: MatchState, run: seq<Move>, T: nat)
    requires AllowedRun(s, run) && T >= End(s, run).Base()
    ensures Charged(s, run, T) >= 0 && Funds(s, run) >= 0
    ensures Tally(s, run).extracted + End(s, run).Rent(T) == s.rate * Charged(s, run, T)
    ensures Take(s, run, T) == Min(Funds(s, run), s.rate * Charged(s, run, T))
  {
    BaseAdvances(s, run);
    Conservation(s, run);
    Distribute(s.rate, Tally(s, run).elapsed, T - End(s, run).Base());
  }

  /** What the first match would owe at `T` bounds extracted plus accrued exactly when
      no more blocks are rewound than carried, and equals it exactly when as many are.
      The take stays within that bound exactly when, moreover or instead, the funds do. */
  lemma EntitlementExact(s: MatchState, run: seq<Move>, T: nat)
    requires AllowedRun(s, run) && T >= End(s, run).Base()
    ensures var t := Tally(s, run); var sum, owed := t.extracted + End(s, run).Rent(T), s.Rent(T);
            var slack := t.carried + Minus(s.Base(), T);
            && (sum <= owed <==> s.rate == 0 || t.rewound <= slack)
            && (sum == owed <==> s.rate == 0 || t.rewound == slack)
            && (Take(s, run, T) <= owed <==> s.rate == 0 || t.rewound <= slack || Funds(s, run) <= owed)
  {
    TakeLaw(s, run, T);
    Ordered(s.rate, Charged(s, run, T), s.Elapsed(T));
  }

  lemma Ordered(rate: nat, a: nat, b: nat)
    ensures rate * a <= rate * b <==> rate == 0 || a <= b
    ensures rate * a == rate * b <==> rate == 0 || a == b
  {
    if a <= b {
      Scaled(rate, b, a, b - a);
      MulMono(a, b, rate);
    } else {
      Scaled(rate, a, b, a - b);
      MulMono(b, a, rate);
    }
  }

  /** At good tips, then, extracted plus accrued never exceeds what the first state
      would owe at `T`, and without a buyer step before the first extraction it is
      equal. */
  lemma {:induction false} Entitlement(s: MatchState, run: seq<Move>, T: nat)
    requires AllowedRun(s, run) && GoodTips(s, run) && End(s, run).last <= T
    ensures Tally(s, run).extracted + End(s, run).Rent(T) <= s.Rent(T)
    ensures s.last > 0 || !HasBuyer(run) ==> Tally(s, run).extracted + End(s, run).Rent(T) == s.Rent(T)
    decreases |run|
  {
    if run != [] && !run[0].Destroy? {
      var m, s' := run[0], After(s, run[0]);
      Entitlement(s', run[1..], T);
      GoodTipsTelescope(s', run[1..]);
      assert HasBuyer(run) <==> m.Buyer? || HasBuyer(run[1..]);
      if m.Extract? {
        ExtractStep(s, m);
        assert m.tip <= T;
        Distribute(s.rate, m.tip - s.Base(), T - m.tip);
      } else {
        BuyerStep(s, m, T);
      }
    } else if run != [] {
      assert run[1..] == [];
    }
  }

  /** The block up to which a run has paid: the tip of a destroy, the base otherwise. */
  function Reach(s: MatchState, run: seq<Move>): nat {
    var base := End(s, run).Base();
    if run != [] && run[|run| - 1].Destroy? && run[|run| - 1].tip > base then run[|run| - 1].tip else base
  }

  /** How a run ends. */
  lemma {:induction false} Ending(s: MatchState, run: seq<Move>)
    requires AllowedRun(s, run) && run != []
    ensures var m, e := run[|run| - 1], End(s, run);
            && Tally(s, run).swept == (if m.Destroy? then e.pool else 0)
            && (m.Destroy? ==> e.Exhausted(m.tip))
            && (m.Extract? && m.tip > 0 ==> e.Base() == m.tip)
            && (m.Destroy? && GoodTips(s, run) ==> m.tip >= e.Base())
    decreases |run|
  {
    var s' := After(s, run[0]);
    if |run| == 1 {
      assert run[1..] == [] && End(s', []) == s' && Tally(s', []).swept == 0;
    } else {
      Ending(s', run[1..]);
    }
  }

  /** The payout of every allowed run that ends with a seller step: the rate times the
      blocks charged, as far as the funds go. */
  lemma PayoutLaw(s: MatchState, run: seq<Move>)
    requires AllowedRun(s, run) && run != [] && !run[|run| - 1].Buyer?
    ensures Charged(s, run, Reach(s, run)) >= 0 && Funds(s, run) >= 0
    ensures Payout(s, run) == Take(s, run, Reach(s, run))
                           == Min(Funds(s, run), s.rate * Charged(s, run, Reach(s, run)))
  {
    var m, e, T := run[|run| - 1], End(s, run), Reach(s, run);
    Ending(s, run);
    Conservation(s, run);
    TakeLaw(s, run, T);
    hide AllowedRun, Tally, End, GoodTips, Charged;
    if m.Destroy? {
      assert e.Exhausted(T) by {
        Ordered(e.rate, e.Elapsed(m.tip), e.Elapsed(T));
      }
    } else {
      assert e.Rent(T) == 0 by {
        RentNearBase(e, T);
      }
    }
  }

  /** At positive tips the payout is what its last tip alone calls for exactly when
      the blocks rewound are only those by which the end lies behind the first base,
      or the funds run out. */
  lemma PathIndependenceExact(s: MatchState, run: seq<Move>)
    requires AllowedRun(s, run) && PositiveTips(run) && run != [] && !run[|run| - 1].Buyer?
    ensures Funds(s, run) >= 0
    ensures var due := s.rate * Minus(Reach(s, run), FirstBase(s, run));
            Payout(s, run) == Min(Funds(s, run), due) <==>
              || s.rate == 0 || Funds(s, run) <= due
              || Tally(s, run).rewound == Minus(FirstBase(s, run), Reach(s, run))
  {
    PayoutLaw(s, run);
    FirstBaseIsCarried(s, run);
    Ordered(s.rate, Charged(s, run, Reach(s, run)), Minus(Reach(s, run), FirstBase(s, run)));
  }

  /** At good tips it always is, whatever the buyer and the seller put in or take out. */
  lemma PayoutAtGoodTips(s: MatchState, run: seq<Move>)
    requires AllowedRun(s, run) && GoodTips(s, run) && run != [] && !run[|run| - 1].Buyer?
    ensures var T := run[|run| - 1].tip;
            && T >= FirstBase(s, run) >= s.Base() && Funds(s, run) >= 0
            && Payout(s, run) == Min(Funds(s, run), s.rate * (T - FirstBase(s, run)))
  {
    GoodTipsTelescope(s, run);
    FirstBaseIsCarried(s, run);
    PayoutLaw(s, run);
    Ending(s, run);
    assert run[|run| - 1] in run;
    AdvancesFromFirstBase(s, run);
  }

  lemma AdvancesFromFirstBase(s: MatchState, run: seq<Move>)
    requires AllowedRun(s, run) && GoodTips(s, run)
    ensures End(s, run).Base() >= FirstBase(s, run)
  {
    GoodTipsTelescope(s, run);
    FirstBaseIsCarried(s, run);
    BaseAdvances(s, run);
  }

  /** So an undisturbed schedule pays the pool or the rent, whichever is less. */
  lemma PathIndependence(s: MatchState, run: seq<Move>)
    requires AllowedRun(s, run) && run != [] && Undisturbed(s, run)
    ensures var T := run[|run| - 1].tip;
            T >= s.Base() && Payout(s, run) == Min(s.pool, s.Rent(T))
  {
    assert run[|run| - 1] in run;
    PayoutAtGoodTips(s, run);
    GoodTipsTelescope(s, run);
    FirstBaseIsCarried(s, run);
    BuyerIdle(s, run);
  }

  lemma {:induction false} BuyerIdle(s: MatchState, run: seq<Move>)
    requires !HasBuyer(run)
    ensures Tally(s, run).buyerNet == 0
    decreases |run|
  {
    if run != [] {
      assert run[0] in run && forall m | m in run[1..] :: m in run;
      BuyerIdle(After(s, run[0]), run[1..]);
    }
  }

  // ---------------------------------------------------------------------------
  // Solvency and bounded work
  // ---------------------------------------------------------------------------

  /** Every positive-rent extraction uses up at least one rate of what was put in
      and leaves something behind, so there are finitely many of them. */
  lemma BoundedWork(s: MatchState, run: seq<Move>)
    requires AllowedRun(s, run) && Tally(s, run).paid > 0
    ensures var t := Tally(s, run); var funds := s.pool + t.buyerAdded + t.sellerAdded;
            t.paid * s.rate < funds && (s.rate > 0 ==> t.paid <= (funds - 1) / s.rate)
  {
    PaidWork(s, run);
    var t := Tally(s, run);
    if s.rate > 0 {
      QuotientBound(t.paid, s.rate, s.pool + t.buyerAdded + t.sellerAdded - 1);
    }
  }

  lemma {:induction false} PaidWork(s: MatchState, run: seq<Move>)
    requires AllowedRun(s, run)
    ensures var t := Tally(s, run);
            t.paid > 0 ==> t.paid * s.rate < s.pool + t.buyerAdded + t.sellerAdded
    decreases |run|
  {
    if run != [] && !run[0].Destroy? {
      var m, rest := run[0], Tally(After(s, run[0]), run[1..]).paid;
      PaidWork(After(s, m), run[1..]);
      if m.Extract? && s.Rent(m.tip) > 0 {
        ExtractStep(s, m);
        assert s.Rent(m.tip) >= s.rate by {
          Distribute(s.rate, 1, s.Elapsed(m.tip) - 1);
        }
        assert (rest + 1) * s.rate == rest * s.rate + s.rate by {
          MulMono(rest, 0, s.rate);
        }
      }
    } else if run != [] {
      assert run[1..] == [];
    }
  }

  /** What each step adds to the totals, told from the pools before and after it: a paid
      extraction is one that lowers the pool. */
  lemma TallyStep(s: MatchState, m: Move, rest: seq<Move>)
    requires Allowed(s, m)
    ensures var t, t' := Tally(s, [m] + rest), Tally(After(s, m), rest);
            match m
            case Extract(_, pool, _) =>
              && t.paid - t'.paid == (if pool < s.pool then 1 else 0)
              && t.extracted - t'.extracted == (if pool < s.pool then s.pool - pool else 0)
              && t.sellerAdded - t'.sellerAdded == (if pool > s.pool then pool - s.pool else 0)
              && t.buyerNet == t'.buyerNet && t.buyerAdded == t'.buyerAdded && t.swept == t'.swept
            case Buyer(pool, _) =>
              && t.buyerNet - t'.buyerNet == pool - s.pool
              && t.buyerAdded - t'.buyerAdded == (if pool > s.pool then pool - s.pool else 0)
              && t.paid == t'.paid && t.extracted == t'.extracted && t.sellerAdded == t'.sellerAdded && t.swept == t'.swept
            case Destroy(_) => t == t'.(swept := t'.swept + s.pool)
    ensures Tally(s, []) == Totals(0, 0, 0, 0, 0, 0, 0, 0, 0)
  {
    assert ([m] + rest)[1..] == rest;
  }

  /** There is a paid extraction exactly when something was extracted, and each took at
      least one rate. */
  lemma {:induction false} PaidExact(s: MatchState, run: seq<Move>)
    requires AllowedRun(s, run)
    ensures var t := Tally(s, run); (t.paid > 0 <==> t.extracted > 0) && t.paid * s.rate <= t.extracted
    decreases |run|
  {
    if run != [] && !run[0].Destroy? {
      var m, rest := run[0], Tally(After(s, run[0]), run[1..]).paid;
      PaidExact(After(s, m), run[1..]);
      if m.Extract? && s.Rent(m.tip) > 0 {
        ExtractStep(s, m);
        assert s.Rent(m.tip) >= s.rate by {
          Distribute(s.rate, 1, s.Elapsed(m.tip) - 1);
        }
        MulMono(rest, 0, s.rate);
      }
    } else if run != [] {
      assert run[1..] == [];
    }
  }

  lemma QuotientBound(n: nat, d: nat, x: nat)
    requires d > 0 && n * d <= x
    ensures n <= x / d
  {
    MulMono(x / d + 1, n, d);
  }

  // ---------------------------------------------------------------------------
  // Exhaustion threshold
  // ---------------------------------------------------------------------------

  function CeilDiv(a: nat, d: nat): (q: nat)
    requires d > 0
    ensures a <= q * d < a + d
  {
    if a % d == 0 then a / d else a / d + 1
  }

  lemma CeilDivLeast(a: nat, d: nat, n: nat)
    requires d > 0
    ensures a <= d * n <==> CeilDiv(a, d) <= n
  {
    hide CeilDiv;
    MulMono(CeilDiv(a, d), n, d);
    MulMono(n + 1, CeilDiv(a, d), d);
  }

  function Threshold(s: MatchState): nat
    requires s.rate > 0
  {
    s.Base() + CeilDiv(s.pool, s.rate)
  }

  /** A funded match is exhausted exactly from its threshold block on. An empty one
      is exhausted at every tip, even one behind its base. */
  lemma ThresholdExact(s: MatchState, tip: nat)
    requires s.rate > 0
    ensures s.Exhausted(tip) <==> s.pool == 0 || tip >= Threshold(s)
  {
    CeilDivLeast(s.pool, s.rate, s.Elapsed(tip));
    if s.pool > 0 {
      assert CeilDiv(s.pool, s.rate) > 0;
    }
  }

  /** Extracting early does not postpone or hasten exhaustion. */
  lemma ThresholdFixed(s: MatchState, m: Move)
    requires m.Extract? && Allowed(s, m) && s.rate > 0
    requires m.tip > 0 && m.tip >= s.Base() && m.pool <= s.pool
    ensures Threshold(After(s, m)) == Threshold(s)
  {
    ExtractStep(s, m);
    var k, q := s.Elapsed(m.tip), CeilDiv(s.pool, s.rate);
    CeilDivLeast(s.pool, s.rate, k);
    assert m.pool == s.pool - s.rate * k;
    CeilDivUnique(m.pool, s.rate, q - k) by {
      assert (q - k) * s.rate == q * s.rate - s.rate * k;
    }
  }

  /** Nor does any undisturbed schedule. */
  lemma {:induction false} ThresholdRunFixed(s: MatchState, run: seq<Move>)
    requires AllowedRun(s, run) && Undisturbed(s, run) && s.rate > 0
    ensures End(s, run).rate == s.rate && Threshold(End(s, run)) == Threshold(s)
    decreases |run|
  {
    hide CeilDiv;
    if run != [] {
      assert run[0] in run && forall m | m in run[1..] :: m in run;
      if run[0].Destroy? {
        assert run[1..] == [];
      } else {
        ThresholdFixed(s, run[0]);
        ThresholdRunFixed(After(s, run[0]), run[1..]);
      }
    }
  }

  lemma CeilDivUnique(a: nat, d: nat, q: nat)
    requires d > 0 && a <= q * d < a + d
    ensures CeilDiv(a, d) == q
  {
    hide CeilDiv;
    MulMono(CeilDiv(a, d) + 1, q, d);
    MulMono(q + 1, CeilDiv(a, d), d);
  }

  // ---------------------------------------------------------------------------
  // Progress
  // ---------------------------------------------------------------------------

  /** One block past the base, rent is one rate: exactly one of a full extraction
      and a destroy is allowed. */
  lemma Progress(s: MatchState, block: nat)
    requires s.rate > 0 && s.block <= block
    ensures s.Rent(s.Base() + 1) == s.rate
    ensures s.pool > s.rate <==> Allowed(s, Extract(s.Base() + 1, Minus(s.pool, s.rate), block))
    ensures s.pool <= s.rate <==> Allowed(s, Destroy(s.Base() + 1))
  {
    assert s.rate * 1 == s.rate;
  }
}
