# Bidding contract: the auction ledger

A Dafny model of the accounting core of a CosmWasm bidding contract. One
auction instance keeps five storage slots: the configuration (owner,
commission, accepted token), the highest bid (address, cumulative bid), a
map from bidder to (deposit coin, bid count), a closed flag, and the
winner. Four operations act on them:

- setup (`_instantiate`) writes the configuration, seeds the leader as
  (instantiator, 0) and opens bidding;
- `bid` checks five conditions in order (closed, owner, denomination, under
  commission, not highest). On success it makes the caller the leader with
  its cumulative total, adds the deposit and one count to its record, and
  sends one commission to the owner;
- `close` (owner only) stores the leader as winner, sets the closed flag and
  sends the owner the leading bid minus `count × commission`;
- `retract` (after close, for anyone but the leader) sends the caller's
  deposit minus `count × commission` to a chosen receiver and deletes the
  caller's record.

The queries read the same state: total deposit of an address, highest bid,
winner (or the sentinel `"nowinneryet"`), accepted denomination, closed flag.

Layout:

- `wrappers.dfy`, `types.dfy`: Option/Result and the host-side types
  (address, coin, bank transfer, caller information, storage error).
- `state.dfy`, `errors.dfy`, `msg.dfy`: the storage slots, the `BidError`
  taxonomy and the message shapes.
- `ledger.dfy` (module `Ledger`): each operation as a function from the store
  to the new store plus the emitted transfers. It also holds the accounting
  invariant `Inv` and the per-operation lemmas.
- `contract.dfy` (module `Contract`): class `Auction`. Its fields are the five
  slots. Its constructor is setup. Its methods `Bid`, `Close`, `Retract` and
  `Execute` load, check and save fields in the same order as the Rust code.
  Each method is proved equal to its `Ledger` function and to keep `Inv`.
  A failed call changes no field.
- `query.dfy` (module `Query`): the queries as functions of the store, which
  is what `Deps` gives them. They cannot write.
- `trace.dfy` (module `Trace`): any sequence of calls, and the properties that
  hold along it.
- `scenarios.dfy`: the runs of `src/multitest.rs`, stated as lemmas about the model.

Transfers are returned as a list of `Send(recipient, coin)`. Balances are not
modelled.

## Model

| member | source | states |
|---|---|---|
| `Ledger.AnyDenom` | src/contract/execute.rs:33-35 | true exactly when some attached coin is in the accepted denomination |
| `Ledger.FindAmount` | src/contract/execute.rs:41-46 | finds a coin exactly when `AnyDenom` holds, and the amount is that of the first coin in the denomination (no earlier coin matches) |
| `Ledger.OtherDenomIgnored` | src/contract/execute.rs:33-46 | inserting a coin of another denomination anywhere in the funds changes neither the denomination check nor the amount found |
| `Ledger.Instantiate` | src/contract/instantiate.rs:6-43 | the initial store satisfies the accounting invariant, and setup emits no transfers |
| `Ledger.BidChecksInOrder` | src/contract/execute.rs:19-70 | each of the five errors occurs exactly when its check is the first to fail, in the order closed, owner, denomination, under commission, not highest (`total <= highest.bid`); no other error is possible |
| `Ledger.BidAccepted` | src/contract/execute.rs:61-106 | on success: the incoming amount covers the commission; the leader becomes (caller, prior + incoming), strictly above the old lead; the caller's record holds prior + incoming and count + 1 (or 1 if new); no other record, the config, the flag and the winner change; the one transfer is the commission to the owner in the accepted denomination |
| `Ledger.TieKeepsLeader` | src/contract/execute.rs:69-70 | a bid whose new total equals the lead fails with `BidTooLow` and the earlier leader stays |
| `Ledger.BidPreservesInv` | src/contract/execute.rs:19-107 | `bid` keeps the accounting invariant: no record for the owner; every record has count >= 1, covers its commissions, is positive, at most the lead and in the accepted denomination; the leader's record equals the lead; winner stored iff closed, and it is the leader |
| `Ledger.CloseSettles` | src/contract/execute.rs:109-144 | a non-owner gets `Unauthorized` and nothing is written. For the owner, close always succeeds, stores winner = leader and sets closed. With a positive lead it emits one transfer to the owner whose amount plus `count × commission` equals the lead; with a zero lead it emits none |
| `Ledger.ClosePreservesInv` | src/contract/execute.rs:109-144 | `close` keeps the accounting invariant, so the subtraction at line 127 never underflows |
| `Ledger.CloseTwiceResettles` | src/contract/execute.rs:109-118 | close has no closed-flag guard: a second owner close leaves the same store and emits the same settlement again |
| `Ledger.RetractChecksInOrder` | src/contract/execute.rs:146-163 | retract fails with `BiddingNotClose`, `NothingToRetract` or `WinnerCantRetract` exactly when that check is the first to fail; no other error is possible, and a caller that passes all three checks succeeds; a failure writes nothing |
| `Ledger.RetractRefunds` | src/contract/execute.rs:165-186 | on success only the caller's record is deleted, and one transfer goes to the receiver (the caller if none is given) in the accepted denomination. Its amount plus `count × commission` equals the caller's deposit |
| `Ledger.RetractPreservesInv` | src/contract/execute.rs:146-186 | `retract` keeps the accounting invariant, so the subtraction at line 168 never underflows |
| `Ledger.RetractOnce` | src/contract/execute.rs:155-180 | after a successful retract, the same caller's next retract fails with `NothingToRetract` |
| `Ledger.WinnerNeverRetracts` | src/contract/execute.rs:160-163 | the stored winner's retract always fails (with `WinnerCantRetract` once a bid was accepted): under the invariant, comparing with the leader is the same as comparing with the stored winner |
| `Ledger.ExecutePreservesInv` | src/contract/execute.rs:6-17 | every dispatched call keeps the accounting invariant |
| `Ledger.ExecuteKeepsConfigAndLead` | src/contract/execute.rs:6-17 | no call changes the configuration or lowers the leading bid |
| `Ledger.ClosedIsFinalStep` | src/contract/execute.rs:21-23 | once closed, any call keeps the flag, the leader and the winner, and every bid fails with `BiddingClosed` |
| `Ledger.AcceptedAmountIgnored` | src/contract/execute.rs:30 | the amount field of the configured token is never read: changing it changes no response and no other part of the new store |
| `Query.GetTotalBidAddr` | src/contract/query.rs:15-19 | succeeds exactly for an address with a record and returns its cumulative deposit; in a reachable store that is positive, at least one commission and at most the lead |
| `Query.GetHighestBid` | src/contract/query.rs:21-28 | returns the stored leader verbatim; in a reachable store no record exceeds it, and a positive lead is the leader's own total |
| `Query.GetWinningBidder` | src/contract/query.rs:30-36 | `"nowinneryet"` while open; in a reachable store it never fails and after close it names the leader |
| `Query.GetAcceptedDenom` | src/contract/query.rs:38-40 | the configured denomination, which every record is held in |
| `Query.IsBiddingClosed` | src/contract/query.rs:42-44 | the stored flag, which in a reachable store is set exactly when a winner is stored |
| `Query.Query` | src/contract/query.rs:5-13 | in a reachable store only the total query for an address without a record fails |
| `Contract.Auction.constructor` | src/contract/instantiate.rs:6-43 | owner is `msg.owner` if given, else the sender; commission and token stored unchanged; leader (sender, 0); open; no records; no winner; the invariant holds |
| `Contract.Auction.Bid` | src/contract/execute.rs:19-107 | returns the response of `Ledger.Bid` and leaves exactly its new store (nothing written on error); keeps the invariant |
| `Contract.Auction.Close` | src/contract/execute.rs:109-144 | returns the response of `Ledger.Close` and leaves exactly its new store; keeps the invariant |
| `Contract.Auction.Retract` | src/contract/execute.rs:146-186 | returns the response of `Ledger.Retract` and leaves exactly its new store; keeps the invariant |
| `Contract.Auction.Execute` | src/contract/execute.rs:6-17 | dispatches to the three operations with the same contracts |
| `Trace.Replay` | src/contract/execute.rs:6-17 | running any sequence of calls from a store that satisfies the invariant passes only through stores that satisfy it, with one response per call |
| `Trace.ConfigFixedLeadMonotone` | src/contract/execute.rs:19-144 | along any run the configuration never changes and the leading bid never decreases |
| `Trace.ClosedIsFinal` | src/contract/execute.rs:109-118 | from a closed store, any run keeps the flag, the leader and the winner, and every bid in it fails with `BiddingClosed` |
| `Trace.GoneStaysGone` | src/contract/execute.rs:146-180 | once closed, an address without a record never regains one and none of its retracts succeeds |
| `Trace.RetractsAtMostOnce` | src/contract/execute.rs:146-186 | in any run from a reachable store, at most one retract per caller succeeds |
| `Trace.RetractsExactlyOnce` | src/contract/execute.rs:146-186 | after close, a non-leading bidder with a record keeps it until it retracts: in any run containing a retract by it, exactly one succeeds |
| `Scenarios.Setup` | src/multitest.rs:51-64 | the test setup store satisfies the invariant |
| `Scenarios.FullWorkflow` | src/multitest.rs:15-432 | commission 2: owner, wrong-denomination and poor bids fail in that order. Bids 10, 20, 25, +20, +20 each pay 2 to the owner, and the tied 10 fails. Close pays the owner 41. The late bid fails. bidder1 gets 26, bidderpoor gets 18 for bidder2, and bidder3's retract fails |
| `Scenarios.WorkflowQueries` | src/multitest.rs:307-341 | after the workflow: leader (bidder3, 45), closed, winner bidder3, bidder1 has no record, bidder3's total is 45 |
| `Scenarios.CloseByOwnerOnly` | src/multitest.rs:434-485 | open at first; a stranger's close is `Unauthorized`; the owner's close closes |
| `Scenarios.AcceptedDenomIsAtom` | src/multitest.rs:487-513 | the accepted denomination query answers "atom" |
| `Scenarios.InstantCloseWinner` | src/multitest.rs:515-557 | before close the winner is "nowinneryet"; closing with no bid settles nothing and the winner is the instantiator |
| `Scenarios.BidThenCloseWinner` | src/multitest.rs:559-607 | a bid of 4 at commission 1 leads and pays 1 to the owner; close pays the owner 3 and the bidder wins |
| `Scenarios.InstantCloseOnContract` | src/multitest.rs:515-557 | the same instant close run on the contract object gives no transfer and winner "instantiator" |

## Left out

- Host plumbing in `src/contract.rs`: the entry points, contract-version bookkeeping and the empty `migrate`.
- The schema generator `src/bin/schema.rs` and the test harness with its simulated bank. The harness's assertions appear only as the scenario lemmas.
- Execution of bank transfers and account balances. Transfers are returned as a list, and the host applies a call's writes and transfers together or not at all. The model reflects this: a failed call writes nothing.
- Funds attached to `close` or `retract` are not looked at by the contract and are not modelled.
- Address validation (`addr_validate`) is treated as always succeeding. The given owner string is stored as it is.
- Serialisation (`to_binary`), storage keys, response attributes, and the `Std` and `Decimal` pass-through error variants. A query's missing-key failure is modelled as `StdError.NotFound`.
- Fixed-width arithmetic: Uint128 amounts and the u32 count are unbounded `nat`, so the overflow panics of the additions at src/contract/execute.rs:64 and 96-97 are not modelled. Underflow of the subtractions at lines 127 and 168 is excluded by the proved invariant.
- `Ledger.Close`, `Ledger.Retract`, `Ledger.Execute`: their preconditions (`Settleable`, `Refundable`) exclude exactly the stores on which the source panics: an owner's close when the leader has no record (src/contract/execute.rs:124) or its commissions exceed the lead (line 127), and a retract past its checks whose commissions exceed the deposit (line 168). The panic itself is not modelled. `Inv` implies both preconditions, so no such store is reachable from setup.
- `BankMsg::Send` carries a vector of coins. The contract always sends exactly one, so the model's transfer holds one coin.
