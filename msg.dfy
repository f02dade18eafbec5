/** The messages the contract accepts and the values its queries answer with. */
module Msg {
  import opened Wrappers
  import opened Types
  import opened State

  /** Setup parameters; the amount inside `acceptedToken` is stored but never read. */
  datatype InstantiateMsg = InstantiateMsg(owner: Option<Addr>, commission: nat, acceptedToken: Coin)

  datatype ExecuteMsg =
    | Bid
    | Close
    | Retract(receiver: Option<Addr>)

  datatype QueryMsg =
    | GetTotalBidAddr(address: Addr)
    | GetHighestBid
    | GetWinningBidder
    | GetAcceptedDenom
    | IsBiddingClosed

  /** The value each query returns before it is serialised for the caller. */
  datatype QueryResponse =
    | TotalBid(total: nat)
    | Highest(highest: HighestBid)
    | Winner(winner: Addr)
    | AcceptedDenom(denom: string)
    | ClosedFlag(closed: bool)
}
