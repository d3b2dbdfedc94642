# Fort: verified models of the stateful engines

Fort is an in-process order-book simulator. This project models its stateful engines in Dafny and
proves what each of them keeps over whole runs. Capacities, hash functions and random words are
parameters; every theorem holds for all of them.

| files | component |
|---|---|
| `Probing.dfy`, `OrderIndex.dfy`, `PriceLevel.dfy`, `BookState.dfy`, `Lob.dfy` | limit order book: tombstoned order index, intrusive queues in price levels, sorted level arrays, message handlers |
| `PlainBook.dfy` | the simple book the engine refines: live orders and an arrival-ordered queue per side and price |
| `Ledger.dfy` | reconciliation ledger: open addressing with cluster reinsertion |
| `Recovery.dfy`, `PreTrade.dfy`, `GatewayState.dfy`, `Gateway.dfy` | write-ahead log replay, pre-trade risk, execution gateway |
| `Reconciled.dfy` | the gateway over the real reconciliation ledger |
| `Matching.dfy`, `Backtest.dfy` | historical replay matching |
| `BlockPool.dfy`, `SpscRing.dfy`, `Bridge.dfy`, `Cluster.dfy` | concurrent protocols as interleaved atomic steps |
| `Auction.dfy` | auction cross |
| `SymbolTable.dfy`, `Itch.dfy`, `FeedSim.dfy` | ITCH 5.0 ticker table, codec and synthetic feed |
| `Sequences.dfy` | shared facts about sequences and sets, and the option type |

## How the proofs are organised

- Each engine is a class with the source's fields. Methods are proved against specification
  functions, and the laws of those functions are separate lemmas.
- Large invariants are *folded*: a definition of the form `forall n :: Unfold(n) ==> body`
  (module `Folding`) equals `body`, but shows it only to a proof that mentions `Unfold`.
- A ghost field holds what the engine stands for: a finite map, a book, a queue or a history.
- Fixed tables that only one thread owns (client slots, order slots, level structs) are value
  sequences held in fields; hash tables, ring slots, byte buffers and free-list links are arrays.
- Branches of the source that can never be entered are shown by an assertion at the point where
  the source tests for them.

## Main results

- **The order book.** Every feed does to the level arrays and the index what it does to a plain book of
  arrival-ordered queues (`Lob.Engine.Replay`). The answers of the index over the whole feed are the ones
  `IndexRun` computes from its slots, so the run is determined by the feed. The index may refuse a new order
  only at its load limit or with a whole probe window of orders live; while it is spacious its hash does not
  show at all (`SpaciousRun`). Live orders and queues are consistent, and from any point of a feed on time
  priority is never turned round.
- **Crash recovery.** A run of gateway requests leaves a trace of coherent states, in which each request has
  its whole effect exactly when it is honoured. Wherever the log is cut,
  replaying it yields exactly the open slots of a state of the trace, the one at which the log was that long
  (`Gateway.CrashAndRecover`). The same run over the real reconciliation ledger gives the same answers until
  a closing fill is crossed by another order's probe (`Reconciled.RunBoth`).
- **Matching.** In every snapshot each eligible order is filled unless risk keeps it out of every level it
  accepts that still has quantity, with no trade-through; what each order keeps of its remainder is exact,
  and so is what the strategy's calls do to the order slots. Every account balances over whole replays
  (`Backtest.Engine.Replay`).
- **Protocols.** Every interleaving of the block pool, the rings, the HTTP bridge and the cluster keeps its
  promise: one holder per block, no torn or lost item, one right answer per request in order, clocks that
  respect causality. Each run leaves a trace in which every step did exactly what it says and nothing else.
- **The wire.** Every ITCH message type is characterised byte by byte: for all field values the decoder gives
  exactly the fields or refuses, and the conditions are spelled out (`Itch.ReplaceDecodes` and its siblings).

## Results that differ from what one might expect

- **Replace can lose an order.** Its pre-flight covers only the order index. `ReplaceKeepsIff` gives the
  exact condition under which the new order rests; `ReplaceLosesAnOrder` is the whole failing family under
  any limits, `SomeRunLoses` a feed from an empty book that ends there whatever the index, and `LoseAnOrder`
  an engine that replays it.
- **The pre-flight of replace refuses more than an insertion would.** `RoomWithoutPreflight` says exactly
  when: the probe window holds tombstones but no untouched slot. `WearOut` reaches such a table.
- **A closing fill can hide another order in the reconciliation ledger.** `apply` clears a slot without
  repairing the cluster. `RetireKeepsOthersIff` says exactly when every other order stays findable;
  `ClosingFillHides` reaches the other case with two registrations and one fill, for any two orders that
  share a home slot. The gateway proofs use the finite-map contract, and `RunBoth` says up to where the real
  table keeps it.
- **Cancelling order 0 succeeds in the reconciliation ledger** while a slot is empty, and costs the open-order
  counter one. `Cancel` states it.
- **A rejection report writes no log record.** `ApplyReject` proves that from then on the log no longer
  describes the open orders.
- **A full collar around a huge reference price refuses every price.** The 64-bit product wraps;
  `CollarMeaning` gives the exact condition, `WrappedCollarRefuses` the family and `WrappedCollarExample` an order
  within every limit that is refused. No other wrapped sum or product lets an order through or turns one away
  (`EvaluateMeaning`).
- **Risk does not always drop the order it stops.** A limit order is dropped when a level it accepts has
  quantity and risk allows it nothing there; cut short at the last level it accepts, it rests with the
  remainder. `Matching.Kept` is the exact rule, and `CutShort` reaches the second case.
- **The auction can keep the reference price although limit orders exist.** `ComputeNoii` states the one
  case: nothing pairs at any limit price and every imbalance there is the largest 64-bit integer.
  `ReferenceKept` reaches it with one order.
- **A half-full ticker table refuses even known tickers.** `Insert` states it and `KnownRefused` reaches it;
  the comment in the source speaks only of a full table.
- **A largest quantity of one makes the feed generator divide by zero** when it draws an execution.
  `DrawableIff` shows that it is the only such draw, `DividesByZero` gives settings that reach it, and
  `GenerateAll` asks for exactly that not to happen.

## Model

| member | source | states |
|---|---|---|
| OrderIndex.OrderRefMap.Lookup | luv_lob.hpp:226-243 | a present reference is found in its own slot, an absent one is never found, within the probe limit and across tombstones |
| OrderIndex.OrderRefMap.CanInsert | luv_lob.hpp:199-221 | answers exactly the pre-flight: below the load limit with an untouched slot in the window, and not present |
| OrderIndex.OrderRefMap.ProbeForInsert | luv_lob.hpp:146-194 | ends on the reference itself, else on a free slot its probe reaches, and gives up only when the window has none |
| OrderIndex.OrderRefMap.Insert | luv_lob.hpp:146-194 | succeeds exactly for valid arguments that are present or have room; the contents are the map update, or unchanged; a new reference stands at the first free slot of its window |
| OrderIndex.OrderRefMap.SetLocation | luv_lob.hpp:729-752 | rewriting the location of a present reference is the map update |
| OrderIndex.OrderRefMap.Remove | luv_lob.hpp:247-262 | the contents lose exactly that reference, and its slot alone becomes a tombstone |
| OrderIndex.ProbeFindsKey | luv_lob.hpp:226-243 | no live key is hidden: before it is met the window is not exhausted and no empty slot is met |
| OrderIndex.PlaceKey | luv_lob.hpp:146-194 | writing a new key on a reached free slot keeps every key reachable |
| OrderIndex.BuryKey | luv_lob.hpp:247-262 | a tombstone keeps every other key reachable |
| OrderIndex.PreflightSurvives | luv_lob.hpp:977-995 | a pre-flighted insertion still has room after any removal, so the rollback of replace is dead |
| OrderIndex.OrderRefMap.RefusalMeans | luv_lob.hpp:146-221 | an insertion is refused only for a reserved reference, at the load limit or with a probe window's worth of live references; the pre-flight also for known references and with a window's worth of slots written at some time |
| OrderIndex.OrderRefMap.RoomWithoutPreflight | luv_lob.hpp:199-221 | for a new reference the pre-flight refuses what an insertion would take exactly when the window holds tombstones but no untouched slot |
| OrderIndex.WearOut | luv_lob.hpp:199-262 | a window's worth of references with one home, the first of them removed, is a table whose pre-flight refuses what an insertion would take |
| OrderIndex.FullWindow | luv_lob.hpp:157-178 | a probe window without a free slot holds as many different live keys as it has slots |
| PriceLevels.AllocSlot | luv_arena.hpp:136-141 | returns a free slot of the level, or none exactly when all are active |
| PriceLevels.LinkSlot | luv_lob.hpp:686-705 | the list visits the old slots in order and then the new one |
| PriceLevels.UnlinkSlot | luv_lob.hpp:707-721 | the list visits the old slots in order without the removed one |
| PriceLevels.AppendOrder | luv_lob.hpp:819-839 | the resting queue gains the order at its end; total and count follow; the level invariant holds |
| PriceLevels.DropOrder | luv_lob.hpp:928-951 | the resting queue loses exactly that order and keeps the rest in order |
| PriceLevels.ReduceOrder | luv_lob.hpp:862-922 | the order keeps its place with the smaller quantity, or is gone when nothing is left |
| PriceLevels.UndoAppend | luv_lob.hpp:847-854 | taking the order back restores queue, total and count |
| PriceLevels.QueueUnique | luv_lob.hpp:686-721 | head and links determine one queue: two queues of the same links are equal |
| PriceLevels.TotalIsResting | luv_lob.hpp:829-839 | a level's total is the sum over its resting orders |
| PriceLevels.TotalBounded | luv_lob.hpp:829-839 | a level's total is between zero and slots times the quantity bound |
| BookState.InsertKeepsBook | luv_lob.hpp:1070-1112 | shifting levels up to open one, with every index entry rewritten, leaves the plain book unchanged |
| BookState.DeleteKeepsBook | luv_lob.hpp:652-678 | shifting levels down over an empty one leaves the plain book unchanged |
| BookState.PutBook | luv_lob.hpp:819-855 | activating a free slot at the tail is the plain book's add, and index and slots stay one to one |
| BookState.DropBook | luv_lob.hpp:928-951 | clearing an active slot is the plain book's removal, and index and slots stay one to one |
| BookState.ResizeBook | luv_lob.hpp:862-922 | resizing an active slot is the plain book's reduction in place |
| BookState.CountIsDepth | luv_lob.hpp:598-603 | the number of active levels is the number of distinct prices with orders |
| Lob.FindLevel | luv_lob.hpp:612-647 | binary search finds the level of a price, or reports that no active level has it |
| Lob.RefreshLevelLocations | luv_lob.hpp:729-752 | the index entries of all orders in the shifted levels become their new locations and no others change |
| Lob.OverflowUnreachable | luv_lob.hpp:830-837 | in every reachable book the checked addition of a level total succeeds, so its rollback is never entered |
| Lob.Engine.constructor | luv_lob.hpp:357-378 | zeroed memory is an empty, consistent book |
| Lob.Engine.InsertLevel | luv_lob.hpp:1070-1112 | opens the level at its sorted place, or refuses exactly at full depth; the plain book is unchanged |
| Lob.Engine.RemoveLevelIfEmpty | luv_lob.hpp:652-678 | afterwards no active level is empty; the plain book is unchanged |
| Lob.Engine.AddOrder | luv_lob.hpp:788-855 | succeeds exactly when the plain book has room at the price and the index has room; then it is the plain add, otherwise nothing changed |
| Lob.Engine.FindOrder | luv_lob.hpp:761-775 | finds exactly the indexed orders; the location check never fails for them |
| Lob.Engine.Reduce | luv_lob.hpp:862-922 | execute and cancel are the plain reduction of a live order; unknown references change nothing |
| Lob.Engine.Delete | luv_lob.hpp:928-951 | delete is the plain removal of a live order; unknown references change nothing |
| Lob.Engine.Replace | luv_lob.hpp:963-1056 | replace is removal followed by an add on the same side if that fits, and nothing at all if the pre-flight fails; pre-flighted it always removes the original and keeps the new order exactly when the target had room |
| Lob.Engine.Process | luv_lob.hpp:394-455 | what each kind of message does to the book of live orders and queues, spelled out per kind: an add joins the end of its queue or is refused for a stated reason, execute and cancel reduce in place and remove at zero, delete removes, replace removes and re-queues, everything else changes nothing, and no other order is touched; it is one step of the plain book, with the index answer and slots determined by the slots before |
| Lob.Engine.Replay | luv_lob.hpp:394-455 | every run of messages leaves a trace of books in which each message did exactly what `Process` says for its kind; it is a run of the plain book whose index answers are computed from the slots of the index and bounded in terms of the book; while the index is spacious it is the run of an unlimited index; the book is consistent, and two orders never change places between any two points of the run while both live |
| PlainBook.StepObeys | luv_lob.hpp:394-455 | one step of the plain book per message kind in terms of live orders, their quantities, sides and prices, and the order in each queue |
| PlainBook.RunObeys | luv_lob.hpp:394-455 | every run leaves a trace of books, each of which follows from the one before by what the message says |
| Lob.Engine.AlwaysConsistent | luv_lob.hpp:394-455 | in every sound engine each queue holds exactly the live orders of its side and price, once each, with their quantities |
| Lob.Engine.Bounds | luv_lob.hpp:598-603 | in the book of any engine no queue exceeds a level and no side has more prices than levels |
| PlainBook.SpaciousRun | luv_lob.hpp:394-455 | below load limit and probe window the book after a feed does not depend on the hash: it is that of an index that never runs short |
| Lob.Engine.BestPrice | luv_lob.hpp:463-475 | an order of the side rests at the price and none rests at a higher one for bids, a lower one for asks; 0 exactly when no order of the side rests |
| Lob.Engine.DepthQty | luv_lob.hpp:498-518 | the sum of the quantities of the live orders of the side whose prices are among the best, as many prices as asked for or all there are |
| PlainBook.RunConsistent | luv_lob.hpp:788-1056 | over every run each live order is in exactly its own queue with its quantity |
| PlainBook.RunKeepsAhead | luv_lob.hpp:686-705 | time priority: from any point of a run on, two orders of a queue never change places while both live |
| PlainBook.ReplaceKeepsIff | luv_lob.hpp:977-1021 | a replace leaves the new order on the book exactly when the target had room, in terms of the book before it |
| PlainBook.ReplaceLosesAnOrder | luv_lob.hpp:1005-1021 | under any limits, moving an order to a full level, or to a new price beyond the depth, deletes it and leaves everything else |
| PlainBook.SomeRunLoses | luv_lob.hpp:1005-1021 | under any limits, from any empty book and with any truthful index large enough, a feed that fills a level and moves another order there loses that order and nothing else |
| Lob.LoseAnOrder | luv_lob.hpp:1005-1021 | an engine under any limits, with an index that can take a level and two orders more, replays that feed and loses the order |
| Ledger.ReconciliationLedger.Register | luv_safety.hpp:813-822 | succeeds exactly for a nonzero unknown identifier, a positive quantity and a free slot; then it is the map update |
| Ledger.ReconciliationLedger.Replace | luv_safety.hpp:823-831 | succeeds exactly for a known identifier and a positive quantity; then it is the map update |
| Ledger.ReconciliationLedger.Apply | luv_safety.hpp:833-847 | succeeds exactly for a quantity within what remains; a fill that leaves the order open is the map update, a closing one clears the slot only |
| Ledger.ReconciliationLedger.Retire | luv_safety.hpp:841-845 | after clearing a slot the table is sound exactly when no other order's probe passes through it |
| Ledger.ReconciliationLedger.Reseat | luv_safety.hpp:908-912 | a lifted entry goes back into the hole if its probe crosses it, else to where it was |
| Ledger.ReconciliationLedger.ReinsertCluster | luv_safety.hpp:902-915 | the walk ends, and afterwards every entry is reached by its probe with its quantity |
| Ledger.ReconciliationLedger.Cancel | luv_safety.hpp:853-861 | removes exactly one key and every other order stays findable with its remaining quantity; for 0 it succeeds exactly while a slot is empty, leaves all orders and takes one off the counter |
| Ledger.ReconciliationLedger.Contains | luv_safety.hpp:849-851 | answers whether the order is open |
| Ledger.ReconciliationLedger.Play | luv_safety.hpp:813-861 | any run of registrations, amendments, partial fills and cancels gives the answers and contents of a finite map |
| Ledger.MoveIntoHole | luv_safety.hpp:908-912 | moving an entry into the hole brings it nearer its home and moves the hole to its slot |
| Ledger.EndRepair | luv_safety.hpp:902-915 | a repair that meets an empty slot has made every probe whole |
| Ledger.RoomIffEmpty | luv_safety.hpp:891-900 | a slot is empty exactly while fewer orders are open than there are slots |
| Ledger.FoundIffReached | luv_safety.hpp:881-889 | a lookup finds an entry exactly when its probe meets no empty slot |
| Ledger.RetireKeepsOthersIff | luv_safety.hpp:841-845 | a closing fill keeps every other order findable exactly when no other probe passes through the slot |
| Ledger.ClosingFillHides | luv_safety.hpp:813-847 | for any two orders with one home slot: register both, close the first, and the second is open but a lookup misses it |
| Recovery.RecoveryLedger.Append | luv_recovery.hpp:136-154 | a record is appended exactly for a nonzero identifier, a positive quantity and a disk that takes it |
| Recovery.RecoveryLedger.Apply | luv_recovery.hpp:224-263 | one record does to the output rows what it does to the map of open orders, for each kind of record in terms of the order's remaining quantity, price, side and time; it is refused exactly when it does not fit |
| Recovery.RecoveryLedger.Remove | luv_recovery.hpp:265-269 | moving the last row into the gap removes exactly that order |
| Recovery.RecoveryLedger.Replay | luv_recovery.hpp:166-201 | succeeds exactly when every record fits within the capacity; the rows are then the open orders, each once |
| Recovery.PrefixReplays | luv_recovery.hpp:166-201 | a log that replays can be cut at any record |
| Recovery.RoomierReplay | luv_recovery.hpp:166-201 | more room never changes the outcome of a successful replay |
| PreTrade.EvaluateMeaning | luv_execution.hpp:224-300 | the masked fixed-width checks pass exactly the orders that are within the limits over the integers: a buy adds its quantity to the position and a sell takes it off, exposure, price band, percentage collar and age as written, unless a full collar's product wraps, when none passes; a refusal carries exactly the reasons of the limits that are broken |
| PreTrade.CollarMeaning | luv_execution.hpp:261-269 | the collar test agrees with the percentage except for a full collar around a reference whose product wraps |
| PreTrade.WrappedCollarRefuses | luv_execution.hpp:261-269 | for every full collar whose product wraps, every encodable price is within the percentage and refused |
| PreTrade.WrappedCollarExample | luv_execution.hpp:224-300 | valid limits and an order within all of them that is refused |
| GatewayState.OneStory | luv_execution.hpp:446-1009 | rate limiter, ledger and slots count the same open orders; each live slot's quantity is its ledger remaining; position is the settled quantity plus open buys minus open sells, exposure the settled notional plus all open notional |
| GatewayState.KeepNew | luv_execution.hpp:967-998 | a reservation keeps all of it together |
| GatewayState.KeepAmended | luv_execution.hpp:822-829 | a partial fill or a replacement keeps all of it together |
| GatewayState.KeepGone | luv_execution.hpp:697-716 | a closing fill, a cancel or a rejection keeps all of it together |
| GatewayState.SlotForNew | luv_execution.hpp:967-982 | an order that passed the capacity check finds a slot |
| Gateway.ExecutionGateway.Admit | luv_execution.hpp:446-561 | admitted exactly when every check passes and both writes succeed; on 64-bit figures the checks are the limits over the integers; a buy adds to the position, a sell takes off, within the limit; every failure restores all figures, ledger, rate and live slots, names its reasons, counts one rejection, and halts the symbol or trips the breaker exactly as stated |
| Gateway.ExecutionGateway.Reserve | luv_execution.hpp:967-998 | slot, figures, ledger entry and rate move together |
| Gateway.ExecutionGateway.Rollback | luv_execution.hpp:517-554 | undoes a reservation: figures, ledger, rate and live slots are as before |
| Gateway.ExecutionGateway.ApplyExecution | luv_execution.hpp:649-726 | succeeds exactly for an open order of the symbol, a quantity within what remains and a stored record; settles the quantity, up for a buy and down for a sell, and the notional at the order's price; a closing fill gives the unfilled rest of the reservation back; slot, ledger, log record and figures are exact and no other slot moves; a logged fill is never refused; a refusal halts the symbol and trips the breaker and moves nothing else |
| Gateway.ExecutionGateway.ApplyCancel | luv_execution.hpp:728-783 | succeeds exactly for an open order and a stored record; gives the open reservation back, settles nothing and touches no other slot; a finished order is left alone, any other refusal halts the symbol and trips the breaker |
| Gateway.ExecutionGateway.ApplyReplace | luv_execution.hpp:785-834 | succeeds exactly for an open order, positive terms and a stored record; the reservation moves to the new terms, nothing else does |
| Gateway.ExecutionGateway.ApplyReject | luv_execution.hpp:853-888 | gives the reservation back without a record: the log stays faithful exactly when nothing was rejected; a rejection for an unknown order is counted too and halts the symbol at the limit, one for a finished order is ignored |
| Gateway.ExecutionGateway.CancelOrder | luv_execution.hpp:914-924 | cancels an open order wherever it rests |
| Gateway.ExecutionGateway.Drive | luv_execution.hpp:446-888 | any run of requests with fresh identifiers: every state of its trace is coherent and each request has its whole effect exactly when it is honoured (checks passed, order open, writes done), and none otherwise; without rejections each request writes at most one record and the log cut anywhere replays to the open orders of a state of the trace; the settled quantity and notional of every symbol are the sums over its honoured fills |
| Gateway.RunAccounts | luv_execution.hpp:649-726 | over any run the settled quantity of a symbol is what its honoured buys filled minus what its sells did, and the notional the sum of price times quantity of all of them |
| Gateway.Recover | luv_recovery.hpp:166-201 | replaying a log prefix that describes a coherent state leaves one row per open slot with its remaining quantity, price and side, and no other row |
| Gateway.CrashAndRecover | luv_recovery.hpp:166-201 | a run stopped after the given number of records, or at its end if there are fewer, and restarted recovers exactly the open slots of the state at which the log was that long |
| Reconciled.Mirror | luv_execution.hpp:446-888 | one request with its calls on the real table: every call succeeds, the table stands for the ledger, and it stays sound unless the request is a closing fill crossed by another order's probe |
| Reconciled.RunBoth | luv_execution.hpp:446-888 | any run over the real table, up to the first crossing: the gateway's trace is that of the finite-map ledger, the table stands for it throughout, and no request but the last is a crossing |
| Gateway.CutPoint | luv_recovery.hpp:166-201 | every length of the log between start and end is its length at some state of the trace |
| Matching.BlockedIffNone | luv_historical_backtest.hpp:155-161 | no unit may trade exactly when the cap is reached, the cash is short of a unit or nothing is held |
| Matching.BasisShares | luv_historical_backtest.hpp:171-177 | a sale takes its share of the cost basis: what stays is in proportion to what is held |
| Matching.UnitIsCost | luv_historical_backtest.hpp:155-161 | the cost of a unit is its price in currency with commission on top |
| Matching.Proportional | luv_historical_backtest.hpp:164-166 | notional and commission of a quantity are the sums over its parts |
| Matching.AcceptsIff | luv_historical_backtest.hpp:147-154 | a limit order accepts a level exactly when the quoted price with the exact slippage is no worse than its limit, a market order whenever a positive price is left |
| Matching.SlippedPrice | luv_historical_backtest.hpp:147-154 | a buyer pays the quoted price plus the slippage, rounded up to a whole price; a seller gets the quoted price less it, rounded down |
| Matching.BlockedIffOneMore | luv_historical_backtest.hpp:155-161 | a level is blocked exactly when one more unit would pass the cap, cost more than the cash, or exceed what is held |
| Matching.BuyKeeps | luv_historical_backtest.hpp:157-170 | the cash covers the buy; a buy cut by risk leaves the level blocked |
| Matching.SellKeeps | luv_historical_backtest.hpp:171-177 | cash plus cost grows by exactly the realised gain; a sale cut by inventory leaves the level blocked |
| Matching.WorseCostsMore | luv_historical_backtest.hpp:147-161 | a worse ask never costs less per unit after rounded-up slippage and commission |
| Matching.Execute | luv_historical_backtest.hpp:155-182 | one fill keeps cash, cost, cap and level sound and is priced within the limit after slippage; a buy moves what it pays from cash to cost, a sale takes off the cost in proportion to the shares sold |
| Matching.MatchOrder | luv_historical_backtest.hpp:147-183 | a pass over the levels conserves worth and level quantity; every fill is from a level open to the order at the start; one not filled in full, whether it rests, is dropped or was a market order, is kept by risk out of every acceptable level with quantity; its remainder is 0 for a market order or if such a level gave it nothing, else what is unfilled |
| Matching.KeptStays | luv_historical_backtest.hpp:147-183 | the pass of a later order of the side changes nothing in what an earlier one keeps |
| Matching.CutShort | luv_historical_backtest.hpp:147-183 | a limit buy cut short by the position cap at its only level rests although the level has quantity left |
| Backtest.SortByPriority | luv_historical_backtest.hpp:139-145 | a permutation of the eligible slots: buys before sells, market orders first, then the higher limit for buys and the lower for sells, then the earlier submission |
| Backtest.UsableIff | luv_historical_backtest.hpp:102-118 | which events are usable: a bar exactly when open and close lie within its priced range, a quoted book exactly when quantities and prices are in range, a level without a price has no quantity and none behind it, both sides get strictly worse with depth and the best ones do not cross |
| Backtest.BehindAcceptsLess | luv_historical_backtest.hpp:139-145 | an order behind accepts no price that the one ahead would not |
| Backtest.NoneLeftAhead | luv_historical_backtest.hpp:147-183 | if an order can trade, no order ahead of it on its side has anything left |
| Backtest.StaysServed | luv_historical_backtest.hpp:147-183 | an order once kept out by risk stays kept out while later orders of its side are matched, and the sells do not concern the buys |
| Backtest.Engine.MatchSnapshot | luv_historical_backtest.hpp:132-184 | exactly the eligible orders are matched, each fill in price-time order over the order slots with no trade-through; each level is short by exactly what was taken; when complete, whatever is unfilled was blocked by risk at every acceptable level with quantity at the end of its side's pass, and the remainder is exactly what `Kept` says |
| Backtest.Engine.Submit | luv_historical_backtest.hpp:82-91 | accepted exactly under the stated checks with an idle slot, the first one; the identifier is new |
| Backtest.Engine.Withdraw | luv_historical_backtest.hpp:92-95 | drops the remainder of exactly that live order |
| Backtest.Engine.Step | luv_historical_backtest.hpp:121-190 | one event is refused unchanged or matched as above, only its fills move cash and positions, and then the strategy's calls do to the order slots what `ObeyedAll` says |
| Backtest.Engine.Replay | luv_historical_backtest.hpp:121-190 | every replay with any callbacks: the matching of every snapshot as above, fills in between none, and the order slots from snapshot to snapshot as the matching and the calls leave them; cash plus open cost is initial cash plus realised profit, cash is initial cash plus the flows of the fills, positions are signed fills within the cap, each fill is later than its submission by the latency and within its limit and quantity; a replay stops exactly at an event that is not usable, out of order or beyond the sample buffer, or when the fill buffer is full |
| BlockPool.Pool.constructor | luv_mempool.hpp:16-22 | all blocks are free, in index order |
| BlockPool.Pool.ReadLink | luv_mempool.hpp:29-33 | gives up exactly when the head seen was the end mark |
| BlockPool.Pool.FinishAllocate | luv_mempool.hpp:34-41 | a successful exchange pops the first free block and hands it to one holder |
| BlockPool.Pool.WriteLink | luv_mempool.hpp:59 | writing the link of a block being freed disturbs nothing else |
| BlockPool.Pool.FinishFree | luv_mempool.hpp:60-66 | a successful exchange pushes the block |
| BlockPool.Pool.Run | luv_mempool.hpp:16-68 | every interleaving keeps the invariant, and leaves a trace of states in which each step did exactly what it says to head, links, free list, holders and its own thread, and a step that cannot be taken did nothing |
| BlockPool.PopKeeps | luv_mempool.hpp:29-42 | an unchanged tag means the link read is current, so the pop is a list pop |
| BlockPool.PushKeeps | luv_mempool.hpp:58-66 | the push is a list push |
| BlockPool.OneHolder | luv_mempool.hpp:16-68 | each block is on the chain exactly once, or held, or being freed by exactly one thread |
| SpscRing.Ring.Claim | luv_consumer.hpp:33-36 | refuses exactly when the ring is full at that moment |
| SpscRing.Ring.Publish | luv_consumer.hpp:37-39 | the item written enters the queue at its end |
| SpscRing.Ring.Peek | luv_consumer.hpp:42-45 | refuses exactly when the ring is empty at that moment |
| SpscRing.Ring.BeginCopy | luv_arena.hpp:283-290 | the slot being read is whole and is not the one being written |
| SpscRing.Ring.EndCopy | luv_consumer.hpp:46 | whatever happened meanwhile the copy is the oldest published item |
| SpscRing.Ring.Run | luv_arena.hpp:270-293 | every interleaving keeps the ring a bounded FIFO queue, and leaves a trace of states in which each action did exactly its step and nothing else |
| SpscRing.NothingLost | luv_consumer.hpp:33-49 | consumed items followed by the contents are the published items, and the contents fit the ring |
| Slots.SlotsDiffer | luv_arena.hpp:270-293 | cursors less than a capacity apart use different slots |
| Bridge.TakeId | luv_http_server.cpp:23-34 | identifiers are handed out one after the other up to the largest, then never again |
| Bridge.ControlPlane.FlushSpilled | luv_http_server.cpp:230-235 | the spilled response goes first, or stays while the ring is full |
| Bridge.ControlPlane.TakeRequest | luv_http_server.cpp:237-264 | the oldest request leaves exactly one answer in hand, the gateway's, unless it is an order submission; no request is answered twice |
| Bridge.ControlPlane.Reply | luv_http_server.cpp:264-268 | the answer is pushed or spilled, never dropped |
| Bridge.ControlPlane.Accept | luv_http_server.cpp:405-410 | a connection takes the first closed slot if there is one |
| Bridge.ControlPlane.Dispatch | luv_http_server.cpp:711-741 | accepted exactly when identifier, body, table entry and ring slot are to be had: then it is queued under the identifier and its client waits; otherwise all are given back and the client is turned down |
| Bridge.ControlPlane.SubmitOrder | luv_http_server.cpp:389-403 | an order is queued under a fresh 32-bit identifier or not at all |
| Bridge.ControlPlane.DrainOne | luv_http_server.cpp:909-925 | the oldest response is given to nobody if it is not outstanding; else it reaches, with what the gateway said, the client waiting on it if there is one, and nobody else |
| Bridge.ControlPlane.Expire | luv_http_server.cpp:927-942 | an expired client that was sending is closed, any other one is turned down; it gives up the shared body |
| Bridge.ControlPlane.CloseClient | luv_http_server.cpp:454-473 | a closed slot keeps nothing of its connection |
| Bridge.ControlPlane.Restart | luv_http_server.cpp:284-286 | a new listener starts with an empty table while the rings keep what is in flight |
| Bridge.ControlPlane.Quiesce | luv_http_server.cpp:222-269 | from every state, running both sides answers every accepted request, in order |
| Bridge.ControlPlane.Run | luv_http_server.cpp:222-942 | every interleaving of owner, listener, clients and restarts: drained requests are the oldest accepted ones, the rest is in flight in order, none occurs twice; each delivery went once to the connection that asked and carries the gateway's answer to that request; the run leaves a trace of states in which each action did exactly what it says and nothing else |
| Bridge.WaitingDiffer | luv_http_server.cpp:909-925 | two waiting clients never share an identifier |
| Auction.CrossEngine.AddAuctionOrder | luv_auction.hpp:54-80 | succeeds exactly for a positive quantity and an inactive slot; fills the first one; adds exactly its quantity to its side's volume at every price it trades at, for a market order all of them, and nothing anywhere else |
| Auction.CrossEngine.Reset | luv_auction.hpp:172-175 | every slot becomes inactive and every volume 0, and nothing else changes |
| Auction.CrossEngine.ComputeNoii | luv_auction.hpp:83-170 | the price pairs the most over all integer prices, then least imbalance, then lowest; paired volume is the smaller of both sides' volume there, the imbalance what the larger one has more, the side named is the larger; each side's volume includes all its market orders; the one exception keeps the reference price |
| Auction.ReferenceKept | luv_auction.hpp:104-158 | one bid for the largest quantity: there is a limit price and the reference price is kept |
| Auction.CrossEngine.CollectPrices | luv_auction.hpp:87-102 | exactly the distinct limit prices of the symbol |
| Auction.CrossEngine.Volumes | luv_auction.hpp:119-134 | the buy and sell volume at a price: market orders at any price, buys at that price or above, sells at that price or below |
| Auction.PairedIs | luv_auction.hpp:135-144 | paired volume and imbalance add up to the larger side, and the paired volume is the smaller |
| Auction.MarketTrades | luv_auction.hpp:119-134 | the volume of a side at any price is at least the sum of its market orders |
| Auction.VolumeOfOne | luv_auction.hpp:119-134 | activating an order in an idle slot changes each volume by exactly what the order adds |
| Auction.LimitPairsAsMuch | luv_auction.hpp:83-170 | some limit price pairs at least as much as any given price |
| Auction.VolumeMonotone | luv_auction.hpp:119-134 | buy volume falls and sell volume rises with the price |
| SymbolTable.Table.Insert | luv_decode_itch.hpp:141-161 | accepted exactly for a small index in a table less than half full; then it is the map update |
| SymbolTable.Table.Lookup | luv_decode_itch.hpp:165-177 | the map's answer: looking at half the slots never misses a ticker |
| FeedSim.KnownRefused | luv_decode_itch.hpp:141-161 | a table filled to half with generated tickers refuses one it knows |
| SymbolTable.ChainWithinHalf | luv_decode_itch.hpp:165-177 | a chain of occupied slots is no longer than the number of keys |
| SymbolTable.PresentIsMet | luv_decode_itch.hpp:165-177 | a present ticker is met in the first half of its probe before any empty slot |
| Itch.ReadBack | luv_decode_itch.hpp:46-66 | writing a number and reading it back |
| Itch.BigEndian | luv_decode_itch.hpp:46-86 | every field reader gives the number whose most significant byte comes first |
| Itch.Be48IsNumber | luv_decode_itch.hpp:76-86 | the two-part timestamp is the six-byte number |
| Itch.DecodeItch | luv_decode_itch.hpp:285-580 | the decoder against the table is the decoder against the table's map, which the eleven rows below characterise message by message |
| Itch.AddDecodes | luv_decode_itch.hpp:344-365 | an add, with or without attribution, is accepted exactly for a known ticker, a nonzero reference, a side letter, and quantity, price and time in range, and gives exactly its fields |
| Itch.ExecutedDecodes | luv_decode_itch.hpp:378-390 | an execution is accepted exactly for a listed locate, a nonzero reference, and quantity and time in range, and gives exactly its fields |
| Itch.ExecutedPriceDecodes | luv_decode_itch.hpp:405-420 | an execution at a price likewise, with its price in range and its printable letter |
| Itch.CancelDecodes | luv_decode_itch.hpp:432-441 | a cancel likewise |
| Itch.DeleteDecodes | luv_decode_itch.hpp:452-460 | a delete likewise |
| Itch.ReplaceDecodes | luv_decode_itch.hpp:477-495 | a replace likewise, for two different nonzero references; the original is the reference and the new one the match field of the tick |
| Itch.TradeDecodes | luv_decode_itch.hpp:508-526 | a trade is accepted exactly for a known ticker, a side letter, and quantity, price and time in range, and gives exactly its fields |
| Itch.CrossDecodes | luv_decode_itch.hpp:531-545 | a cross likewise, with eight bytes of shares up to the largest quantity |
| Itch.ActionDecodes | luv_decode_itch.hpp:550-559 | a trading action of a known ticker sets the halted flag exactly for a halt or a pause |
| Itch.RegShoDecodes | luv_decode_itch.hpp:564-573 | a short-sale restriction of a known ticker sets its flag exactly for an active one |
| Itch.OthersRefused | luv_decode_itch.hpp:246-342 | a message shorter than its type demands, or of no known type, is refused |
| Itch.StockSpelled | luv_feed_sim.hpp:367-374 | the ticker of a symbol is the letter S and its number in decimal with leading zeros |
| Itch.FormatStock | luv_feed_sim.hpp:367-374 | a letter and seven decimal digits |
| Itch.StocksDiffer | luv_feed_sim.hpp:367-374 | symbols below ten million have different tickers |
| Itch.GenAddOrder | luv_feed_sim.hpp:388-410 | the buffer holds the add message |
| Itch.GenOrderExecuted | luv_feed_sim.hpp:413-434 | the buffer holds the executed message |
| Itch.GenOrderCancel | luv_feed_sim.hpp:437-455 | the buffer holds the cancel message |
| Itch.GenOrderDelete | luv_feed_sim.hpp:457-470 | the buffer holds the delete message |
| Itch.AddRoundTrip | luv_decode_itch.hpp:344-365 | an add message decodes to its fields |
| Itch.ExecutedRoundTrip | luv_decode_itch.hpp:378-390 | an executed message decodes to its fields |
| Itch.CancelRoundTrip | luv_decode_itch.hpp:432-441 | a cancel message decodes to its fields |
| Itch.DeleteRoundTrip | luv_decode_itch.hpp:452-460 | a delete message decodes to its fields |
| FeedSim.InitSymbols | luv_feed_sim.hpp:221-226 | every generated ticker is in the table with its index, and nothing else |
| FeedSim.GenerateAll | luv_feed_sim.hpp:303-331 | for any random words and any 32-bit count each message decodes to exactly the fields that were drawn |
| FeedSim.Simulate | luv_feed_sim.hpp:221-331 | from the empty ticker table: entering the tickers, generating and decoding through the table gives back every drawn field; adds take the references 1, 2, 3, ..., every other message names an order added before it, kinds come at sixty, fifteen, fifteen and ten in a hundred rolls, and fields and time gaps are in range |
| FeedSim.DrawableIff | luv_feed_sim.hpp:92-100 | in range settings make no draw divide by zero except an execution, and that one exactly with a largest quantity of one |
| FeedSim.DividesByZero | luv_feed_sim.hpp:426-427 | settings in range that reach it |
| FeedSim.ReorderWindow.Next | luv_feed_sim.hpp:651-674 | a round hands out every index once, none further ahead than the window |
| Cluster.MedianCommits | luv_multiregion_raft_cluster.hpp:205-214 | the middle of the sorted acknowledgements is the largest index acknowledged by three of five, and nothing else is |
| Cluster.Node.UpdateGlobalCommit | luv_multiregion_raft_cluster.hpp:205-214 | the commit index is the largest index acknowledged by at least three regions |
| Cluster.Node.PeerHeartbeat | luv_multiregion_raft_cluster.hpp:79-93 | the acknowledgement is recorded and the commit index stays the majority one |
| Cluster.Node.AppendOrderEvent | luv_multiregion_raft_cluster.hpp:101-128 | the new clock is one further or the wall clock if that is ahead, above everything the node knows; the entry extends the log and its region's acknowledgement, and the ring holds the latest entries |
| Cluster.Node.ReplicateFromRemote | luv_multiregion_raft_cluster.hpp:130-151 | a stale term changes nothing; otherwise the clock is one above the largest of the entry's, the node's and the wall clock, a newer term brings its leader, and the log grows exactly by the next index |
| Cluster.World.AppendAt | luv_multiregion_raft_cluster.hpp:101-128 | an entry has a larger clock than every entry its node had processed, and than their causal pasts; no node forgets anything |
| Cluster.World.DeliverTo | luv_multiregion_raft_cluster.hpp:130-151 | an entry that is not stale joins the node's causal past with its own; no node forgets anything |
| Cluster.World.Run | luv_multiregion_raft_cluster.hpp:79-151 | any exchange of entries and heartbeats keeps every clock above its causal past and every commit index at the majority; nothing known or sent is forgotten; the run leaves a trace of states in which each action did exactly what it says at its node and nothing elsewhere |
| Cluster.World.ProcessThenAppend | luv_multiregion_raft_cluster.hpp:101-151 | happened-before end to end: after processing an entry and any exchange, whatever the node appends has a larger clock than the entry and its whole past |

## Left out

- Files, mmap, fsync, locks and checksums: the log is a sequence of intact records and an append is all or nothing.
- Sockets, polling, HTTP and JSON parsing, bearer keys, WebSocket upgrades and partial writes.
- Weak memory orderings: steps are sequentially consistent. Cursors, pool tags, logical clocks, log indices, replay order identifiers and counters do not wrap.
- Floating-point rounding in the replay engine: money is exact reals. Marks, equity samples, fee totals and the rejection counter are not modelled.
- Statistics counters, mid price, spread, crossed and stale queries of the book, and `fixup_levels`, which nothing calls.
- `try_replace`, OUCH packet contents, fill notifications and the circuit breaker's cool-down and rate window: the breaker's answer is a parameter, and a failure trips it as with its default threshold of one.
- Regulatory, margin and reporting headers, pricers, AI inference, `HotStandbyReplica` and cluster health: short formulas, or promises that do not hold.
- The decoder's logging.
- The fields of a bridge answer and its JSON: an answer is one value the gateway gives for a command and an order identifier. The bridge and the listener are one class, `ControlPlane`, whose methods belong to one thread each.
- Ledger.ReconciliationLedger.Play: closing fills and cancels of 0 on a table with an empty slot are outside the run, because they break the finite map; `Retire`, `RetireKeepsOthersIff` and `Cancel` cover them.
- Gateway.ExecutionGateway.Drive: identifiers of new orders are never reused, as the order counter guarantees; the ledger is the finite map it stands for, and `Reconciled.RunBoth` says up to where the real one agrees.
- Gateway.ExecutionGateway.ApplyReplace: position and exposure are unbounded integers; the source does not check these sums.
- Gateway.ExecutionGateway.ApplyReject: faithfulness of the log is excluded after a rejection, because the source writes no record.
- Auction.CrossEngine.ComputeNoii: neither side's volume at a limit price exceeds a signed 64-bit integer; beyond that the source's sum is undefined.
- FeedSim.GenerateAll: no execution is drawn while the largest quantity is one; the source divides by zero there.
- PlainBook.RunConsistent: the index answers are part of the run; `Lob.Engine.Replay` proves that the engine's answers qualify.
