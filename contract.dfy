/**
 * The contract itself: one auction instance whose five storage slots are
 * fields that `bid`, `close` and `retract` load, check and save in turn.
 * Each method is proved to do what the matching `Ledger` function says,
 * and to keep `Ledger.Inv`.
 */
module Contract {
  import opened Wrappers
  import opened Types
  import opened State
  import opened Errors
  import Ledger
  import Msg

  class Auction {
    var config: Config
    var highest: HighestBid
    var bidders: map<Addr, Record>
    var closed: bool
    var winner: Option<Addr>

    /** The store as the queries read it (`Deps`). */
    function Storage(): Store
      reads this
    {
      Store(config, highest, bidders, closed, winner)
    }

    ghost predicate Valid()
      reads this
    {
      Ledger.Inv(Storage())
    }

    /** `_instantiate`: config, leader (instantiator, 0), bidding open; no transfers. */
    constructor (info: MessageInfo, msg: Msg.InstantiateMsg)
      ensures Valid()
      ensures Storage() == Ledger.Instantiate(info, msg).next
      ensures config.owner == (if msg.owner.Some? then msg.owner.value else info.sender)
      ensures config.commission == msg.commission && config.acceptedToken == msg.acceptedToken
      ensures highest == HighestBid(info.sender, 0) && !closed && bidders == map[] && winner == None
    {
      var owner := info.sender;
      if msg.owner.Some? {
        owner := msg.owner.value;
      }
      config := Config(owner, msg.commission, msg.acceptedToken);
      highest := HighestBid(info.sender, 0);
      closed := false;
      bidders := map[];
      winner := None;
    }

    /** `bid`: on failure nothing is written; on success see `Ledger.BidAccepted`. */
    method Bid(info: MessageInfo) returns (r: Result<seq<BankMsg>, BidError>)
      requires Valid()
      modifies this
      ensures Valid()
      ensures r == Ledger.Response(Ledger.Bid(old(Storage()), info))
      ensures Storage() == Ledger.Apply(old(Storage()), Ledger.Bid(old(Storage()), info))
    {
      Ledger.BidPreservesInv(Storage(), info);
      if closed {
        return Failure(BiddingClosed);
      }
      if info.sender == config.owner {
        return Failure(OwnerCantBid);
      }
      var acceptedDenom := config.acceptedToken.denom;
      if !Ledger.AnyDenom(info.funds, acceptedDenom) {
        return Failure(WrongToken);
      }
      var currentBid := Ledger.FindAmount(info.funds, acceptedDenom).GetOr(0);
      if currentBid < config.commission {
        return Failure(BidUnderCommission);
      }
      var commissionMsg := Send(config.owner, Coin(config.acceptedToken.denom, config.commission));

      var totalCurrentBid := currentBid;
      var optSenderBid := if info.sender in bidders then Some(bidders[info.sender]) else None;
      if optSenderBid.Some? {
        totalCurrentBid := currentBid + optSenderBid.value.deposit.amount;
      }
      if highest.bid >= totalCurrentBid {
        return Failure(BidTooLow);
      }
      highest := HighestBid(info.sender, totalCurrentBid);
      if optSenderBid.None? {
        bidders := bidders[info.sender := Record(Coin(acceptedDenom, currentBid), 1)];
      } else {
        var lastBid := bidders[info.sender];
        lastBid := lastBid.(deposit := lastBid.deposit.(amount := lastBid.deposit.amount + currentBid));
        lastBid := lastBid.(count := lastBid.count + 1);
        bidders := bidders[info.sender := lastBid];
      }
      r := Success([commissionMsg]);
    }

    /** `close`: owner only; not guarded against being repeated (see `Ledger.CloseTwiceResettles`). */
    method Close(info: MessageInfo) returns (r: Result<seq<BankMsg>, BidError>)
      requires Valid()
      modifies this
      ensures Valid()
      ensures r == Ledger.Response(Ledger.Close(old(Storage()), info))
      ensures Storage() == Ledger.Apply(old(Storage()), Ledger.Close(old(Storage()), info))
    {
      Ledger.ClosePreservesInv(Storage(), info);
      if info.sender != config.owner {
        return Failure(Unauthorized);
      }
      var highestBid := highest;
      winner := Some(highestBid.address);
      closed := true;
      if highestBid.bid > 0 {
        var nbBid := bidders[highestBid.address].count;
        var amountToSend := highestBid.bid - nbBid * config.commission;
        return Success([Send(config.owner, Coin(config.acceptedToken.denom, amountToSend))]);
      }
      r := Success([]);
    }

    /** `retract`: after close, a non-leader's deposit net of commissions goes to `receiver` or the caller. */
    method Retract(info: MessageInfo, receiver: Option<Addr>) returns (r: Result<seq<BankMsg>, BidError>)
      requires Valid()
      modifies this
      ensures Valid()
      ensures r == Ledger.Response(Ledger.Retract(old(Storage()), info, receiver))
      ensures Storage() == Ledger.Apply(old(Storage()), Ledger.Retract(old(Storage()), info, receiver))
    {
      Ledger.RetractPreservesInv(Storage(), info, receiver);
      if !closed {
        return Failure(BiddingNotClose);
      }
      if info.sender !in bidders {
        return Failure(NothingToRetract);
      }
      var highestBidder := highest.address;
      if highestBidder == info.sender {
        return Failure(WinnerCantRetract);
      }
      var bid := bidders[info.sender];
      var tokenToSend := bid.deposit.amount - bid.count * config.commission;
      var tokenReceiver := info.sender;
      if receiver.Some? {
        tokenReceiver := receiver.value;
      }
      var msgSendRetract := Send(tokenReceiver, Coin(config.acceptedToken.denom, tokenToSend));
      bidders := bidders - {info.sender};
      r := Success([msgSendRetract]);
    }

    /** `_execute`: dispatch on the message. */
    method Execute(info: MessageInfo, msg: Msg.ExecuteMsg) returns (r: Result<seq<BankMsg>, BidError>)
      requires Valid()
      modifies this
      ensures Valid()
      ensures r == Ledger.Response(Ledger.Execute(old(Storage()), info, msg))
      ensures Storage() == Ledger.Apply(old(Storage()), Ledger.Execute(old(Storage()), info, msg))
    {
      match msg
      case Bid => r := Bid(info);
      case Close => r := Close(info);
      case Retract(receiver) => r := Retract(info, receiver);
    }
  }
}
