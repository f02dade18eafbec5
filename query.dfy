/**
 * The read-only queries. Each takes the store it may read (`Deps`) and
 * returns a projection of it; none can write, which the signatures show.
 */
module Query {
  import opened Wrappers
  import opened Types
  import opened State
  import opened Ledger
  import Msg

  /** What the winner query answers while bidding is open. */
  const NoWinnerYet: Addr := "nowinneryet"

  /**
   * `get_total_bid_addr`: an address's cumulative deposit, failing for an
   * address with no record. In a reachable store the total covers at
   * least one commission and never exceeds the leading bid.
   */
  function GetTotalBidAddr(s: Store, address: Addr): (r: Result<nat, StdError>)
    ensures r.Success? <==> address in s.bidders
    ensures r.Success? ==> r.value == Prior(s, address)
    ensures Inv(s) && r.Success? ==> 0 < r.value && s.config.commission <= r.value <= s.highest.bid
  {
    if address in s.bidders then
      var record := s.bidders[address];
      Success(record.deposit.amount)
    else
      Failure(NotFound("bidders"))
  }

  /**
   * `get_highest_bid`: the stored leader verbatim. In a reachable store it
   * is the largest cumulative deposit and, once positive, the leader's own total.
   */
  function GetHighestBid(s: Store): (r: Result<HighestBid, StdError>)
    ensures r.Success? && r.value == s.highest
    ensures Inv(s) ==> forall a | a in s.bidders :: s.bidders[a].deposit.amount <= r.value.bid
    ensures Inv(s) && r.value.bid > 0 ==> GetTotalBidAddr(s, r.value.address) == Success(r.value.bid)
  {
    Success(s.highest)
  }

  /**
   * `get_winning_bider`: the sentinel while open, the stored winner once
   * closed. In a reachable store it never fails and, once closed, names the leader.
   */
  function GetWinningBidder(s: Store): (r: Result<Addr, StdError>)
    ensures !s.closed ==> r == Success(NoWinnerYet)
    ensures Inv(s) ==> r.Success?
    ensures Inv(s) && s.closed ==> r == Success(s.highest.address)
  {
    if s.closed then
      if s.winner.Some? then Success(s.winner.value) else Failure(NotFound("bid_winner"))
    else
      Success(NoWinnerYet)
  }

  /** `get_accepted_denom`: the configured denomination, the one every record is held in. */
  function GetAcceptedDenom(s: Store): (r: Result<string, StdError>)
    ensures r.Success? && r.value == s.config.acceptedToken.denom
    ensures Inv(s) ==> forall a | a in s.bidders :: s.bidders[a].deposit.denom == r.value
  {
    Success(s.config.acceptedToken.denom)
  }

  /** `is_bidding_closed`: the stored flag, which in a reachable store is set exactly when a winner is stored. */
  function IsBiddingClosed(s: Store): (r: Result<bool, StdError>)
    ensures r.Success? && r.value == s.closed
    ensures Inv(s) ==> (r.value <==> s.winner.Some?)
  {
    Success(s.closed)
  }

  /** `_query`: dispatch; in a reachable store only the total of an unknown address fails. */
  function Query(s: Store, msg: Msg.QueryMsg): (r: Result<Msg.QueryResponse, StdError>)
    ensures Inv(s) ==> (r.Failure? <==> msg.GetTotalBidAddr? && msg.address !in s.bidders)
  {
    match msg
    case GetTotalBidAddr(address) =>
      var t := GetTotalBidAddr(s, address);
      if t.Success? then Success(Msg.TotalBid(t.value)) else Failure(t.error)
    case GetHighestBid => Success(Msg.Highest(GetHighestBid(s).value))
    case GetWinningBidder =>
      var w := GetWinningBidder(s);
      if w.Success? then Success(Msg.Winner(w.value)) else Failure(w.error)
    case GetAcceptedDenom => Success(Msg.AcceptedDenom(GetAcceptedDenom(s).value))
    case IsBiddingClosed => Success(Msg.ClosedFlag(IsBiddingClosed(s).value))
  }
}
