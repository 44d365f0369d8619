# Opticrum rent escrow: a verified model

Opticrum rents Fiber channel liquidity on CKB. A buyer locks funds in an *order*
cell; a seller who owns a matching channel turns it into a *match* cell; from then on
rent leaves the cell at a fixed rate per block until nothing is left and the seller
destroys it. This project models the three layers that have to agree for that to
work, and proves how they agree:

- the **on-chain verifier**: parsing, routing and the four branch verifiers;
- the **off-chain calculator and reader**: the transaction builders, the scanner, and
  their own copy of the rent law;
- the **byte codecs** under both.

Between them stands a small *ideal law* over unbounded integers (`Ledger.dfy`). The
verifier is proved to accept exactly the moves that law allows, the theorems about
whole runs are proved about the law, and then carried back to runs of accepted
transactions.

| file | what it models |
|---|---|
| `Machine.dfy` | fixed-width integers; the three outcomes of a run: a value, a reported error, or the trap that overflow raises (`Cargo.toml:68`) |
| `LittleEndian.dfy` | little-endian integers from first principles |
| `Protocol.dfy` | `OutPoint`, `CompressedPubkey`, `OrderArgs`, `OrderData`, `MatchArgs`, `MatchData`: layouts, parsers, and the buffer-filling code |
| `Cells.dfy` | cells, transactions, capacity, and the loads and searches of `utils.rs` |
| `State.dfy` | `Branch::parse`, `OpticrumState::compare`, `liquidity_rent`, `is_exhausted` |
| `Verifiers.dfy` | `Root`, the four branch verifiers, `Context`, and the dispatch table |
| `Ledger.dfy` | the ideal rent law of one CKB match, and the theorems about its runs |
| `Runs.dfy` | exact verdicts of the verifier in terms of that law; runs of accepted transactions |
| `Realization.dfy` | the converse: accepted transactions for every allowed run |
| `Faults.dfy` | which error a transaction is refused with |
| `Types.dfy` | `MatchInfo`, `OrderInfo` and the off-chain rent law |
| `Reader.dfy` | cell parsers and scans |
| `Calculator.dfy` | the transaction builders and the effect of their operations |
| `Lifecycle.dfy` | what the verifier says about what the calculator builds |
| `Draining.dfy` | a seller who steps block by block gets the whole pool |

## Main results

1. **The u64 verifier is the ideal law** (`UpdateExact`, `DestroyExact`,
   `AcceptedIsAllowed`). On a CKB match an extraction is accepted exactly when the
   unbounded law allows it, because a match that is not exhausted cannot overflow. A
   destroy additionally needs the rent to fit 64 bits. Over whole runs: the accepted
   runs are exactly the allowed runs whose numbers fit.
2. **Conservation** (`RunConservation`), whatever the tips and whoever acts.
3. **Base law** (`RunBaseLaw`), with no hypothesis on tips, and **telescoping**
   (`RunTelescoping`): the total extracted is the rate times the distance the clock
   moved if and only if no tip lies behind its base.
4. **Payout** (`RunPayout`): every run that ends with a seller step pays the rate times
   the blocks charged, as far as the funds go. It is what the last tip alone calls for
   exactly under the condition of `RunPathIndependenceExact`, and always at good tips,
   buyer steps and additions included (`RunPayoutAtGoodTips`, `RunPathIndependence`).
5. **Entitlement** (`RunEntitlement`): by block T the seller's take stays within what
   the first match would owe at T if and only if no more blocks are rewound than
   carried, or the funds stay within it. At good tips it always does, whatever the
   schedule and the buyer (`RunEntitlementAtGoodTips`).
6. **Bounded work and progress** (`RunBoundedWork`, `SellerWindow`, `Drain`,
   `WholeLife`): finitely many paid extractions; extraction and destroy never overlap; a
   seller stepping block by block empties any match in ceil(pool / rate) accepted
   transactions, each built by the calculator; and from a created order there is an
   accepted run to the end that pays the seller the whole rent capacity. These are also
   the runs that show the hypotheses of the run theorems can be met.
7. **Tokens stay put** (`TokensConstant`, `TokenUpdateExact`, `TokenDestroyExact`,
   `LargeTokensStay`).
8. **Provenance** (`Provenance`): what every state reachable from an order keeps.
9. **What the calculator builds is accepted**, routed as predicted, and leads to the
   state predicted (`ExtractRentRefines`, `ExtractSimulates`, `UpdateSimulates`,
   `MatchOrderAccepted`, `CreateThenMatch`, `CancelOrderAccepted`), each with the exact
   condition.
10. **Scans are the contract's own classification** (`ScansAreClassification`,
    `PrefixScanIsFilter`), for every batching.
11. **The reported error is exact** (`UpdateFaults`, `DestroyFaults`, `MatchFaults`,
    `CancelFaults`): the outcome of a transaction is that of the first check that fails,
    in terms of the law.

## Where expected properties fail

Each of these is proved with the exact condition.

- **An old tip is paid for twice.** The contract does not make tips monotone: a tip
  behind the clock costs nothing and sets the clock back. So the telescoped law, the
  entitlement bound, and the dependence of the payout on the last tip all fail.
  `OldTipBreaksTelescoping` gives an allowed run from every match with a running clock
  and more than two rates in its pool. `DrainEarly` gives accepted transactions, built by
  the calculator, that pay the seller the whole pool of any match with a positive base
  that the seller can act on, with no tip beyond one block past the base, where one rate
  is due. The exact conditions are in `Telescoping`,
  `EntitlementExact`, and `PathIndependenceExact`. A caller can check them on each tip:
  nothing is rewound if and only if every extraction's tip is at or past its base
  (`RewoundExact`).
- **Accrued rent is not protected from the buyer.** The buyer may withdraw a pool on
  which rent has accrued. What the seller can collect by block T survives a buyer step
  exactly when the new pool, and the rent now accrued, still cover it (`BuyerHop`).
- **An empty pool is exhausted at every tip**, even before its threshold block
  (`ThresholdExact`).
- **`extract_rent` drops match data beyond 32 bytes**, and the capacity that frees falls
  into the pool. Such a match is refused whenever rent is due (`ExtractAccepted`).
- **A token match pays no rent step by step.** `compare` demands equal tokens, amount
  included (`contracts/opticrum/src/state.rs:101`), and the amount the update verifier
  checks is that same amount. So the token branch of
  `contracts/opticrum/src/verifiers/match_update.rs:65-73` is satisfiable only at zero
  rent. `ExtractAccepted`, `TokenExtractionIsFree` and `UpdateMatchBuyerAccepted` give
  the conditions.
- **A token match whose amount needs more than 64 bits can never be destroyed**
  (`LargeTokensStay`): the rent traps first.
- **A destroy can trap.** At a tip where rate times elapsed does not fit 64 bits the
  destroy is refused, although the match is exhausted (`DestroyExact`).
- **An order without a token type that records a token amount cannot be matched** by
  `match_order`, which writes amount zero (`MatchOrderAccepted`). `create_order` never
  makes such an order (`CreateThenMatch`).
- **A first extraction at the match's own block** lists one header twice
  (`ExtractRentRefines`).

## Where the code and its documentation differ

The model follows the code.

- The repository's `README.md:114` and `calculator/opticrum/README.md:70` say that the buyer pre-funds
  the reserve and that the match keeps the order's capacity. `create_order` adds no
  reserve, and `match_order` adds it (`calculator/opticrum/src/calculator.rs:272`).
- `calculator/opticrum/README.md:87` and `:102` describe token extraction and token
  adjustment; see above.
- `contracts/opticrum/src/verifiers/order_match.rs:22` speaks of equal capacity; the
  check compares unoccupied capacity.
- `calculator/opticrum/src/calculator.rs:300-302` puts the match cell first among the
  inputs of an extraction; the code adds the seller's cell first.
- `calculator/opticrum/README.md:54` says a cancel's output cell returns the capacity.
  `cancel_order` makes an output only for tokens; the rest comes back in balancing.

## Assumptions

- One Opticrum input group of size one. `Root` reads the first cell of the group and
  the first Opticrum output, and a run follows that output. `Sole` states the first
  half; the second is how `Accepted` chooses the successor.
- A stored cell pays for its bytes: occupied capacity is 10^8 shannons for each of the
  8 bytes of the capacity field, 33 bytes and the args of each script, and the data (CKB
  RFC 0022, "Value Storage"). `Stored` appears only where capacity arithmetic needs it.
- The header of the block that created a cell can be loaded only if the transaction
  lists it (CKB RFC 0009, "Load Header"). Headers are identified by block number.
- A token amount is the first 16 bytes of cell data, little-endian (CKB RFC 0052, xUDT
  cell data).
- A new cell is created no earlier than the cell it replaces.
- ckb-cinnabar is not part of this model; its operations have their documented effect.
  An operation without an index acts on the cell added last, an output made from an
  input inherits the lock and type it is not given, a non-absolute capacity comes on
  top of what the bytes occupy, and a capacity adjustment that leaves the u64 range
  fails. Balancing and signing add cells that are not under the contract's lock
  (`Neutral`).
- The lock hash of a cell is carried beside its lock, as an opaque value.

## Model

The functions that define the model have no row of their own: a row names the lemma or
method that says something about them.

| member | source | states |
|---|---|---|
| Runs.UpdateExact | contracts/opticrum/src/verifiers/match_update.rs:26-126 | A Match to Match transaction on a CKB match is accepted if and only if the args and rate are kept and either the seller alone, with a cell dep at the channel's outpoint and the headers supplied, makes an extraction the unbounded law allows and sets the clock to the tip, or the buyer alone keeps the clock. No overflow condition is needed. |
| Runs.DestroyExact | contracts/opticrum/src/verifiers/match_destroy.rs:16-36 | Without an Opticrum output the transaction is accepted if and only if the seller is present, the headers are there, the law calls the match exhausted and the rent fits 64 bits; it traps if and only if the rent does not fit. |
| Runs.RentIsIdeal | contracts/opticrum/src/state.rs:115-131 | On-chain rent equals the unbounded rate times positive part of tip minus base, or traps exactly when that exceeds 64 bits, or reports a missing header exactly when one it reads is not listed. |
| Runs.UpdateRoute | contracts/opticrum/src/state.rs:94-109 | Root passes a match on to the update verifier if and only if the successor is a match with equal args and equal tokens, amount included; otherwise Root itself refuses. |
| Runs.OrderRoute | contracts/opticrum/src/state.rs:76-93 | Root passes an order on to the match verifier if and only if the successor is a match with the order's args and tokens. |
| Runs.TokensByType | contracts/opticrum/src/utils.rs:166-178 | A match holds tokens exactly when its cell has a type script. |
| Runs.SoleIsHead | contracts/opticrum/src/verifiers/root.rs:22-27 | Alone in its script group, the spent cell is the one Root parses. |
| Runs.SellerWindow | contracts/opticrum/src/state.rs:133-140 | For a positive rate, with the seller alone and deps supplied, a well-formed extraction is accepted exactly while there is a pool and the tip is before the threshold block; a destroy exactly otherwise, if the rent fits 64 bits. |
| Runs.HopRefines | contracts/opticrum/src/verifiers/match_update.rs:47-125 | Every accepted transaction on a CKB match is a move the law allows, and its successor is the state the law predicts, with the terms kept. |
| Runs.RunRefines | contracts/opticrum/src/verifiers/match_update.rs:26-126 | A whole accepted run is an allowed run of the law and ends in the state the law predicts. |
| Runs.RunConservation | contracts/opticrum/src/verifiers/match_update.rs:47-125 | For every accepted run, with no hypothesis on tips: final pool + extracted = initial pool + signed buyer changes + seller additions, and extracted = rate times the sum of positive parts of tip minus base. |
| Runs.RunBaseLaw | contracts/opticrum/src/state.rs:115-131 | For every accepted run: extracted = rate times (advance of the base - blocks carried + blocks rewound); equal to rate times the advance if and only if the rate is zero or carried = rewound. |
| Runs.RunTelescoping | contracts/opticrum/src/state.rs:115-131 | With positive tips and at least one extraction, the total extracted is rate times (final clock - base the first extraction consumed) if and only if the rate is zero or no tip lies behind its base; then it is at most rate times (final clock - first base). |
| Runs.RunPayout | contracts/opticrum/src/verifiers/match_update.rs:49-101 | Every accepted run that ends with a seller step pays min(funds, rate times blocks charged), with no hypothesis on tips: funds are the pool plus what both parties put in or took out, blocks charged are those since the first base, less those carried, plus those rewound. |
| Runs.RunPathIndependenceExact | contracts/opticrum/src/verifiers/match_update.rs:49-101 | At positive tips the payout is min(funds, rate times (end - first base)) if and only if the rate is zero, the funds run out by then, or the blocks rewound are only those by which the end lies behind the first base. |
| Runs.RunPayoutAtGoodTips | contracts/opticrum/src/verifiers/match_update.rs:49-123 | At good tips a run ending at tip T pays min(funds, rate times (T - base the first extraction consumed)), buyer steps and seller additions included. |
| Runs.RunPathIndependence | contracts/opticrum/src/verifiers/match_update.rs:49-101 | The case with the buyer idle and nothing added: min(pool, rate times (T - base)), whatever the intermediate tips. |
| Runs.RunEntitlement | contracts/opticrum/src/verifiers/match_update.rs:47-125 | For every accepted run and T no earlier than its final base: extracted plus accrued is rate times the blocks charged by T. It is at most what the first match owes at T if and only if the rate is zero or no more blocks are rewound than carried; the take, funds included, likewise or if the funds stay within it. |
| Runs.RunEntitlementAtGoodTips | contracts/opticrum/src/verifiers/match_update.rs:47-125 | At good tips extracted plus accrued never exceeds what the first match owes at T; equal once the clock runs or when the buyer stays idle. |
| Runs.RunBoundedWork | contracts/opticrum/src/verifiers/match_update.rs:56-87 | A run holds at most (pool + additions - 1) / rate extractions with positive rent. |
| Runs.SellerHop | contracts/opticrum/src/verifiers/match_update.rs:49-101 | An accepted extraction takes exactly the rent, leaves a positive pool, moves the clock to the tip, and lets the pool grow only when no rent is due. |
| Runs.BuyerHop | contracts/opticrum/src/verifiers/match_update.rs:102-123 | An accepted buyer step leaves rent accrued at every block unchanged once the clock runs; before that it restarts the base at the new cell and never raises it. What the seller can collect by T is kept if and only if the new pool and the rent now accrued still cover it. |
| Runs.HopKeepsTokens | contracts/opticrum/src/state.rs:85-101 | Every accepted step with a successor keeps token type and amount, leads to a match, and from a match keeps args and rate. |
| Runs.TokensConstant | contracts/opticrum/src/state.rs:98-106 | Token type and amount are constant over every accepted run, from order to end. |
| Runs.TokenAmount | contracts/opticrum/src/utils.rs:166-178 | The amount that guards a token match is the amount in its match data: both read the same 16 bytes. |
| Runs.TokenUpdateExact | contracts/opticrum/src/verifiers/match_update.rs:65-73 | On a token match an update is accepted if and only if terms and tokens are kept and either the seller moves the clock at zero rent with tokens left, or the buyer keeps the clock. |
| Runs.TokenExtractionIsFree | contracts/opticrum/src/verifiers/match_update.rs:65-73 | A seller step accepted on a token match has zero rent. |
| Runs.TokenDestroyExact | contracts/opticrum/src/state.rs:133-140 | A token match is destroyed if and only if the seller and headers are there and amount <= rent < 2^64. |
| Runs.LargeTokensStay | contracts/opticrum/src/state.rs:130-137 | No accepted run destroys a token match whose amount is 2^64 or more. |
| Runs.OrderMatchExact | contracts/opticrum/src/verifiers/order_match.rs:30-115 | The six checks together hold if and only if a qualifying channel dep is found, the seller signs, the match data is exactly the order's amount and rate with clock zero, the pool is intact, both headers are listed, and the channel is younger. |
| Runs.OrderChannelExact | contracts/opticrum/src/utils.rs:103-153 | The lookup returns the first dep at the outpoint if its lock has hash type `Type` and one of the three Fiber funding code hashes, given byte by byte, and it meets the order's type, token and capacity demand; nothing otherwise, even if a later dep would. |
| Runs.CancelExact | contracts/opticrum/src/verifiers/order_cancel.rs:15-31 | Without an Opticrum output an order can be spent if and only if the buyer is present. |
| Runs.OrderHop | contracts/opticrum/src/verifiers/order_match.rs:30-115 | Every accepted step from an order is a cancel by the buyer or makes a match with the order's args, rate, tokens and pool and a qualifying, younger channel. |
| Runs.Provenance | contracts/opticrum/src/verifiers/order_match.rs:30-115 | In every state reachable from an order: buyer, key and rate are the order's, channel and seller are those fixed when matched, the channel qualified; no run returns to an order. |
| Runs.Prefixes | contracts/opticrum/src/verifiers/root.rs:43-49 | Every cell along a run is the last cell of a shorter accepted run, so invariants of the last cell hold throughout. |
| Realization.AcceptedIsAllowed | contracts/opticrum/src/verifiers/match_update.rs:26-126 | Given cells of both parties and the channel, a list of moves is that of an accepted run if and only if the law allows it and its numbers, destroy rents included, fit their machine types. |
| Realization.Realize | contracts/opticrum/src/verifiers/match_update.rs:26-126 | Every allowed run that fits is played, move by move, by accepted transactions. |
| Realization.HopPlays | contracts/opticrum/src/verifiers/match_update.rs:47-125 | Every allowed move that fits is made by an accepted transaction, which is read back as that move. |
| Realization.MovesFit | contracts/opticrum/src/verifiers/match_destroy.rs:16-36 | The moves of every accepted run fit. |
| Faults.UpdateFaults | contracts/opticrum/src/verifiers/match_update.rs:29-125 | The outcome of a Match to Match transaction on a CKB match is exactly that of the first failing check, in terms of the law: parse error, `UnknownState`, rate, authorization, channel, headers, trap on rent beyond 64 bits, exhaustion, amount, clock. `BadMatchUpdate` never occurs. |
| Faults.DestroyFaults | contracts/opticrum/src/verifiers/match_destroy.rs:21-31 | The outcome of a destroy is exactly that of the first failing check: seller, headers, trap, exhaustion. |
| Faults.MatchFaults | contracts/opticrum/src/verifiers/order_match.rs:33-114 | The outcome of an order match is exactly that of the first failing check, and never a trap. |
| Faults.CancelFaults | contracts/opticrum/src/verifiers/order_cancel.rs:15-31 | The outcome of a cancel is acceptance or `BuyerAuthMissing`, by the buyer's presence. |
| Faults.BranchGuards | contracts/opticrum/src/state.rs:157-185 | Routing aside, every branch verifier refuses states of another branch, with the accessors' errors. |
| Faults.UpdateGuards | contracts/opticrum/src/verifiers/match_update.rs:32-119 | Routing aside, the update verifier refuses changed args, and a buyer's change of token type, with `BadMatchUpdate`. |
| Faults.ParseFaults | contracts/opticrum/src/state.rs:34-46 | Parsing succeeds, and says order or match, by the lengths of args and data alone; the error is the one those lengths call for. |
| Faults.RoutingFault | contracts/opticrum/src/verifiers/root.rs:30-49 | Once the spent cell parses, Root fails only with the output's parse error or `UnknownState`. |
| Cells.FindOpticrumFacts | contracts/opticrum/src/utils.rs:193-207 | Root's output search takes the first output whose lock has the contract's code hash and hash type `Type`, and none only if there is none. |
| Cells.FindAtFacts | contracts/opticrum/src/utils.rs:112-126 | The search by outpoint takes the first cell there. |
| Cells.CapacityInNumbers | contracts/opticrum/src/utils.rs:181-185 | Occupied and unoccupied capacity of every cell in shannons: 10^8 for each of 41 bytes, the args, 33 bytes for a type script, and the data. |
| Verifiers.Context.VerifyRoot | contracts/opticrum/src/verifiers/root.rs:19-50 | Filling the context field by field leaves exactly the two parsed states and names exactly the route that the pure verdict uses, with the same errors. |
| Verifiers.RunTree | contracts/opticrum/src/main.rs:35-42 | Running Root and then the branch it names gives the verdict that every theorem here is about. |
| Ledger.ExtractStep | contracts/opticrum/src/verifiers/match_update.rs:56-87 | An allowed extraction takes exactly the rent; it adds to the pool only at zero rent; after a positive rent something is left. |
| Ledger.Conservation | contracts/opticrum/src/verifiers/match_update.rs:47-125 | Conservation of the pool over every allowed run of the law. |
| Ledger.BaseLaw | contracts/opticrum/src/state.rs:119-130 | Over every allowed run the base advances by blocks paid + carried - rewound. |
| Ledger.Telescoping | contracts/opticrum/src/state.rs:115-131 | The telescoped law and the exact condition under which it holds. |
| Ledger.OldTipBreaksTelescoping | contracts/opticrum/src/state.rs:128-129 | From every match with a running clock and more than two rates in its pool, an allowed run with one tip behind the clock is paid twice the telescoped amount. |
| Ledger.RewoundExact | contracts/opticrum/src/state.rs:128-129 | A run rewinds no block if and only if every extraction's tip is at or past the base of the match it spends. |
| Ledger.GoodTipsTelescope | src/bin/extract_liquidity_rent.rs:23-47 | Tips as the seller client supplies them never rewind, and the clock never runs backwards. |
| Ledger.TakeLaw | contracts/opticrum/src/state.rs:115-140 | For every allowed run: extracted plus accrued at T is rate times the blocks charged, and what the seller has and can collect is that, as far as the funds go. |
| Ledger.EntitlementExact | contracts/opticrum/src/state.rs:115-131 | The exact condition under which extracted plus accrued, and the take, stay within the first state's rent at T, and under which the sum equals it. |
| Ledger.Entitlement | contracts/opticrum/src/state.rs:115-131 | At good tips, extracted plus accrued at T is at most the first state's rent at T, with equality when the clock runs from the start or no buyer step occurs. |
| Ledger.BuyerCollectable | contracts/opticrum/src/verifiers/match_update.rs:103-123 | A buyer step keeps what the seller can collect by T if and only if the new pool and the rent now accrued cover it; once the clock runs, only the pool matters. |
| Ledger.BuyerStep | contracts/opticrum/src/verifiers/match_update.rs:103-123 | A buyer step never raises accrued rent, and leaves it alone once the clock runs. |
| Ledger.PayoutLaw | contracts/opticrum/src/verifiers/match_update.rs:49-101 | The payout of every allowed run that ends with a seller step is min(funds, rate times blocks charged). |
| Ledger.PathIndependenceExact | contracts/opticrum/src/verifiers/match_update.rs:49-101 | The exact condition under which the payout at positive tips depends on the last tip and the funds alone. |
| Ledger.PayoutAtGoodTips | contracts/opticrum/src/verifiers/match_update.rs:49-123 | At good tips it always does, buyer steps and additions included. |
| Ledger.PathIndependence | contracts/opticrum/src/verifiers/match_update.rs:49-101 | The payout at T of an undisturbed schedule is min(pool, rent at T). |
| Ledger.BoundedWork | contracts/opticrum/src/verifiers/match_update.rs:56-87 | Number of paid extractions times the rate stays below the funds put in. |
| Ledger.PaidExact | contracts/opticrum/src/verifiers/match_update.rs:75-87 | There is a paid extraction if and only if something was extracted, and each took at least one rate. |
| Ledger.TallyStep | contracts/opticrum/src/verifiers/match_update.rs:75-87 | What each step adds to every total, told from the pools before and after it; a paid extraction is one that lowers the pool. |
| Ledger.ThresholdExact | contracts/opticrum/src/state.rs:133-140 | A match with positive rate is exhausted at a tip if and only if its pool is empty or the tip has reached base + ceil(pool / rate). |
| Ledger.ThresholdFixed | contracts/opticrum/src/state.rs:133-140 | An extraction that adds nothing does not move the threshold block. |
| Ledger.ThresholdRunFixed | contracts/opticrum/src/state.rs:133-140 | Nor does any schedule of such extractions. |
| Ledger.CeilDivLeast | contracts/opticrum/src/state.rs:138-138 | ceil(pool / rate) is the least number of blocks whose rent covers the pool. |
| Ledger.Progress | contracts/opticrum/src/verifiers/match_destroy.rs:16-36 | One block past the base exactly one of a full extraction and a destroy is allowed. |
| Draining.StepExtract | calculator/opticrum/src/calculator.rs:309-373 | At every positive tip up to one block past the base, behind it included, at which the match is not exhausted, the built extraction is accepted and leaves a match poorer by the rent, with its base at the tip, on which the seller can act again. |
| Draining.StepDestroy | calculator/opticrum/src/calculator.rs:466-520 | One block past the base of a match worth at most one rate, the built destroy is accepted. |
| Draining.Drain | contracts/opticrum/src/verifiers/match_destroy.rs:16-36 | From every such match there is an accepted run at consecutive blocks that destroys it after ceil(pool / rate) steps (one step for an empty pool) and pays the seller the whole pool, undisturbed and at good tips. |
| Draining.DrainEarly | contracts/opticrum/src/state.rs:128-129 | From every match the seller can act on, with a positive base, there is an accepted run of calculator-built transactions that pays the seller the whole pool with no tip beyond one block past the base, where one rate is due. |
| Draining.WholeLife | calculator/opticrum/src/calculator.rs:233-373 | From every CKB order that `create_order` makes with positive rate, and every younger channel that meets its demand, there is an accepted run Order, Match, extractions, destroy that pays the seller exactly the rent capacity. |
| Draining.Served | calculator/opticrum/src/calculator.rs:233-275 | The match that `match_order` leaves has the order's pool and rate and a fresh clock, and can be drained. |
| Lifecycle.OffChainRent | calculator/opticrum/src/types.rs:64-81 | The off-chain amount is the unbounded rent or a trap, and off-chain exhaustion is exhaustion in the unbounded law. |
| Lifecycle.RentLawsAgree | calculator/opticrum/src/types.rs:64-81 | Off-chain and on-chain rent and exhaustion agree on every match cell and every transaction with the headers, traps included. |
| Lifecycle.ExtractOutputPool | calculator/opticrum/src/calculator.rs:352-370 | The built output is storable, and its pool is the old one less the rent plus what dropped data frees. |
| Lifecycle.ExtractAccepted | calculator/opticrum/src/calculator.rs:318-372 | The extraction built before exhaustion is well formed and, with the buyer absent, accepted if and only if no rent is due, or the match is a CKB match with exactly 32 bytes of data. |
| Lifecycle.DestroyAccepted | calculator/opticrum/src/calculator.rs:466-520 | The destroy built hands the seller all capacity and tokens of the match and is accepted if and only if `is_exhausted` says so without overflow; the seller's lock may be any lock that is not the contract's, of hash type `Type` or not. |
| Lifecycle.ExtractRentRefines | calculator/opticrum/src/calculator.rs:309-373 | For every CKB match with 32-byte data and no overflow, what `extract_rent` builds (given the live channel, unless the match is exhausted) is accepted, and routed to destroy exactly when off-chain exhaustion holds and to update otherwise; its header deps are distinct except for a first extraction at the match's own block. |
| Lifecycle.ExtractSimulates | calculator/opticrum/src/calculator.rs:348-370 | Re-reading the output of an extraction, on CKB and token matches and data of any length, gives the old info with the clock at the tip, exactly the rent taken from capacity or tokens, and the capacity that excess data freed. |
| Lifecycle.UpdateMatchBuyerAccepted | calculator/opticrum/src/calculator.rs:402-438 | The buyer update built is accepted if and only if the seller stays out and, on a token match, the amount is unchanged. |
| Lifecycle.UpdateSimulates | calculator/opticrum/src/calculator.rs:408-416 | Re-reading the stored output of a buyer update, on CKB and token matches and data of any length, gives the old info with the capacity moved by exactly the delta and what excess data freed, the new token amount, rate and clock kept. |
| Lifecycle.CancelOrderAccepted | calculator/opticrum/src/calculator.rs:176-202 | What `cancel_order` builds is accepted, carries the deps it needs, and returns the tokens to the buyer in a storable cell. |
| Lifecycle.CancelBuilds | calculator/opticrum/src/calculator.rs:176-202 | The deps, inputs and outputs of a cancel, in full. |
| Lifecycle.ReserveIsGrowth | calculator/opticrum/src/config.rs:24-25 | The reserve, 68 CKB, is exactly the growth in occupied capacity from order to match, for every capacity and type script; the pool is untouched. |
| Lifecycle.MatchOrderAccepted | calculator/opticrum/src/calculator.rs:233-275 | What `match_order` builds is accepted if and only if the channel meets the demand, is younger than the order, and an order without a token type records no tokens. |
| Lifecycle.CreateBuilds | calculator/opticrum/src/calculator.rs:108-165 | `create_order` builds exactly one order cell, with the rent capacity on top of what it occupies, from the buyer's cell, with the contract dep and, for tokens, the xUDT dep. |
| Lifecycle.CreatedOrderReads | calculator/opticrum/src/reader.rs:148-172 | A created order is storable and reads back, field by field, as the caller asked: args, demanded channel capacity and rate as given, tokens as given or zero without a token type, rent capacity as its pool. |
| Lifecycle.CreateThenMatch | calculator/opticrum/src/calculator.rs:233-275 | An order from `create_order`, read back and matched by `match_order`, is accepted if and only if the channel is younger, under a recognised funding lock, of the order's token type, and holds the tokens or the capacity that the creator asked for. |
| Lifecycle.RebuiltMatch | contracts/opticrum/src/verifiers/root.rs:30-38 | A match cell written by the tools parses on chain to the args, data and tokens written. |
| Calculator.CreateOrder | calculator/opticrum/src/calculator.rs:108-165 | The growing operation list ends as the list that `CreateBuilds` runs; its output operation writes data that parse to the caller's demand and rate, with tokens only for a token type, under the order's args. |
| Calculator.CancelOrder | calculator/opticrum/src/calculator.rs:176-202 | The growing operation list ends as the list that `CancelOrderAccepted` runs. |
| Calculator.ExtractRent | calculator/opticrum/src/calculator.rs:309-373 | Field updates and pushes end as the list that `ExtractRentRefines` runs, with the same traps. |
| Calculator.UpdateMatchBuyer | calculator/opticrum/src/calculator.rs:402-438 | It traps if and only if the delta is the least signed integer. Otherwise its last operation writes data that parse to the old rate and clock with the new token amount, keeps the lock, and moves every capacity by exactly the delta, failing when that leaves the u64 range. |
| Calculator.DestroyMatch | calculator/opticrum/src/calculator.rs:466-520 | The growing operation list ends as the list that `DestroyAccepted` runs. |
| Reader.OrderParserAgrees | calculator/opticrum/src/reader.rs:148-172 | On stored cells the order parser accepts exactly what the contract classifies as an order, with the same args, data, pool and tokens. |
| Reader.MatchParserAgrees | calculator/opticrum/src/reader.rs:175-199 | The same for the match parser. |
| Reader.ScanCells | calculator/opticrum/src/reader.rs:86-106 | For every batching, the results are the parsed values of all cells that parse, in order. |
| Reader.ScanMatches | calculator/opticrum/src/reader.rs:298-304 | A scan returns the parsed matches among the cells the query hits, whatever the pages. |
| Reader.ScanOrders | calculator/opticrum/src/reader.rs:272-291 | A scan returns the parsed orders in order, each unchanged but for the address looked up for its own outpoint. |
| Reader.ScansAreClassification | calculator/opticrum/src/reader.rs:86-106 | Full scans return exactly the cells under the contract's code hash that the contract parses as orders and as matches, one value each, in chain order, and disjoint. |
| Reader.ScanSource | calculator/opticrum/src/reader.rs:63-106 | A value is in a scan if and only if it parses from a cell of the chain under the contract's code hash with hash type `Type` whose args start with the prefix. |
| Reader.RentCapacityInNumbers | calculator/opticrum/src/reader.rs:117-121 | The off-chain pool in shannons, with the overflow that makes it fail. |
| Reader.PrefixScanIsFilter | calculator/opticrum/src/reader.rs:56-75 | Scanning with a key equals filtering the full scan by that key, for orders and matches. |
| Reader.KeyIsPrefix | opticrum-protocol/src/lib.rs:163-174 | A parsed cell's args start with a key exactly when that key is its Fiber public key. |
| LittleEndian.DecodeEncode | opticrum-protocol/src/lib.rs:55-70 | Decoding inverts encoding on every value that fits the width. |
| LittleEndian.EncodeDecode | opticrum-protocol/src/lib.rs:55-70 | Encoding inverts decoding on every byte string. |
| LittleEndian.DigitAt | opticrum-protocol/src/lib.rs:65-70 | Byte i is digit i in base 256, low byte first. |
| Protocol.OutPoint.Matches | opticrum-protocol/src/lib.rs:72-74 | Comparing encodings is comparing outpoints. |
| Protocol.OutPointRoundTrip | opticrum-protocol/src/lib.rs:55-70 | Parsing an encoded outpoint gives it back. |
| Protocol.OrderArgsRoundTrip | opticrum-protocol/src/lib.rs:163-181 | Parsing encoded order args gives them back. |
| Protocol.OrderDataRoundTrip | opticrum-protocol/src/lib.rs:209-236 | Parsing encoded order data gives it back. |
| Protocol.MatchArgsRoundTrip | opticrum-protocol/src/lib.rs:267-293 | Parsing encoded match args gives them back. |
| Protocol.MatchDataRoundTrip | opticrum-protocol/src/lib.rs:325-352 | Parsing encoded match data followed by any bytes gives it back. |
| Protocol.ParsersAreExact | opticrum-protocol/src/lib.rs:267-342 | All five parsers accept by length alone, and what they accept is the encoding of what they return (its first 32 bytes, for match data). |
| Protocol.OrderDataLayout | opticrum-protocol/src/lib.rs:228-236 | Every byte of order data is the named digit of the named field. |
| Protocol.MatchDataLayout | opticrum-protocol/src/lib.rs:344-352 | Every byte of match data is the named digit of the named field. |
| Protocol.MatchArgsLayout | opticrum-protocol/src/lib.rs:285-293 | Every byte of match args is the named byte of the named field. |
| Protocol.MatchArgsInjective | opticrum-protocol/src/lib.rs:285-293 | Equal match args mean equal order, channel and seller. |
| Protocol.EncodeOutPoint | opticrum-protocol/src/lib.rs:65-70 | Filling the buffer gives the encoding that the round trips are about. |
| Protocol.EncodeOrderArgs | opticrum-protocol/src/lib.rs:176-181 | Filling the buffer gives the encoding that the round trips are about. |
| Protocol.EncodeOrderData | opticrum-protocol/src/lib.rs:228-236 | Filling the buffer gives the encoding that the layout and round trip are about. |
| Protocol.EncodeMatchArgs | opticrum-protocol/src/lib.rs:285-293 | Filling the buffer field by field gives the encoding that the layout and injectivity are about. |
| Protocol.EncodeMatchData | opticrum-protocol/src/lib.rs:344-352 | Filling the buffer gives the encoding that the layout and round trip are about. |
| Protocol.DecodeOutPoint | opticrum-protocol/src/lib.rs:55-63 | Copying slices out of the buffer parses it as the exact parser does, short and long inputs included. |
| Protocol.DecodeOrderArgs | opticrum-protocol/src/lib.rs:163-174 | Copying slices out of the buffer parses it as the exact parser does. |
| Protocol.DecodeMatchArgs | opticrum-protocol/src/lib.rs:267-283 | Copying slices out of the buffer parses it as the exact parser does, through the two inner parsers. |

## Left out

- RPC, the indexer's transport, async, key handling and signing: the indexer is a
  sequence of cells with a prefix query and pages that are any split of its answer;
  fee balancing adds cells that are not the contract's.
- Finding the contract's code hash on the chain
  (`calculator/opticrum/src/reader.rs:44-54`) and the type id per network
  (`calculator/opticrum/src/config.rs:28-43`): the code hash is a parameter.
- Hashing, signature checks and molecule encoding: lock hashes and scripts are opaque
  values with equality, and the packed block numbers compared at
  `contracts/opticrum/src/verifiers/order_match.rs:105` are numbers.
- The floating-point yield helpers: display code.
- The Fiber address in a transaction witness: the builder's operation changes no cell,
  and the lookup is a parameter of `ScanOrders`.
- Groups of several Opticrum cells, several Opticrum outputs in one transaction, and
  dep groups: the verifier reads one input, the first output and a flat list of deps.
- The `since` field of inputs, and debug messages.
- The numeric codes of the errors; the text of a codec error, which every caller drops.
- Whether a node accepts header deps that repeat: `ExtractRentRefines` says when they
  do.
- Runs.RunTelescoping: is stated for positive tips, because a tip of zero returns the
  clock to "never extracted"; `RunBaseLaw` is the law that covers zero tips too.
- Draining.Drain: takes from its caller a cell of the seller's own for authorization,
  the channel, and a chain that reaches past the threshold block; the seller's cell is
  the same at every step, so the change that balancing returns is not tracked.
- Lifecycle.UpdateMatchBuyerAccepted: excludes the least signed delta, on which the
  builder traps, and deltas that leave the u64 range, on which it fails to build.
