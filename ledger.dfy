/**
 * The auction's accounting rules as functions from the store before a call
 * to the store after it and the bank transfers the call emits. These are the
 * reference definitions the contract's methods are proved against, and the
 * invariant `Inv` that every operation keeps.
 */
module Ledger {
  import opened Wrappers
  import opened Types
  import opened State
  import opened Errors
  import Msg

  /** What a successful call leaves behind: the new store and the transfers of its response. */
  datatype Step = Step(next: Store, messages: seq<BankMsg>)

  type Outcome = Result<Step, BidError>

  /** The store after a call: a failed call writes nothing. */
  function Apply(s: Store, o: Outcome): Store {
    if o.Success? then o.value.next else s
  }

  /** What the caller sees: the transfers of a successful call, or its error. */
  function Response(o: Outcome): Result<seq<BankMsg>, BidError> {
    if o.Success? then Success(o.value.messages) else Failure(o.error)
  }

  // ---------------------------------------------------------------------------
  // The attached funds

  /** Whether some attached coin is in `denom` (`funds.iter().any(..)`). */
  function AnyDenom(funds: seq<Coin>, denom: string): (r: bool)
    ensures r <==> exists i | 0 <= i < |funds| :: funds[i].denom == denom
  {
    if funds == [] then false
    else if funds[0].denom == denom then true
    else
      var rest := AnyDenom(funds[1..], denom);
      assert forall i | 1 <= i < |funds| :: funds[i] == funds[1..][i - 1];
      rest
  }

  /** The amount of the first attached coin in `denom` (`funds.iter().find(..)`). */
  function FindAmount(funds: seq<Coin>, denom: string): (r: Option<nat>)
    ensures r.Some? <==> AnyDenom(funds, denom)
    ensures r.Some? ==>
      exists i | 0 <= i < |funds| ::
        && funds[i] == Coin(denom, r.value)
        && forall j | 0 <= j < i :: funds[j].denom != denom
  {
    if funds == [] then None
    else if funds[0].denom == denom then Some(funds[0].amount)
    else
      var rest := FindAmount(funds[1..], denom);
      if rest.Some? then
        var k :| 0 <= k < |funds| - 1 && funds[1..][k] == Coin(denom, rest.value)
                 && forall j | 0 <= j < k :: funds[1..][j].denom != denom;
        assert funds[k + 1] == Coin(denom, rest.value);
        assert forall j | 0 <= j < k + 1 :: funds[j].denom != denom by {
          forall j | 0 <= j < k + 1 ensures funds[j].denom != denom {
            if j > 0 { assert funds[j] == funds[1..][j - 1]; }
          }
        }
        rest
      else rest
  }

  /** The amount a bid call brings: the first coin in the accepted denomination, 0 if none. */
  function Incoming(funds: seq<Coin>, denom: string): nat {
    FindAmount(funds, denom).GetOr(0)
  }

  /** The caller's cumulative deposit so far, 0 for a first-time bidder. */
  function Prior(s: Store, a: Addr): nat {
    if a in s.bidders then s.bidders[a].deposit.amount else 0
  }

  // ---------------------------------------------------------------------------
  // The invariant

  /** What every `BIDDERS` entry satisfies: it covers its commissions and never exceeds the lead. */
  predicate RecordOk(c: Config, leading: nat, r: Record) {
    && r.count >= 1
    && r.count * c.commission <= r.deposit.amount
    && 0 < r.deposit.amount <= leading
    && r.deposit.denom == c.acceptedToken.denom
  }

  /**
   * The accounting invariant of every reachable store: the owner holds no
   * record, every record covers `count * commission`, the leader's record
   * holds exactly the leading bid (so the lead is the largest deposit), and
   * a winner is stored exactly when bidding is closed, and is the leader.
   */
  predicate Inv(s: Store) {
    && s.config.owner !in s.bidders
    && (forall a | a in s.bidders :: RecordOk(s.config, s.highest.bid, s.bidders[a]))
    && (s.highest.bid > 0 ==>
          s.highest.address in s.bidders && s.bidders[s.highest.address].deposit.amount == s.highest.bid)
    && (s.closed <==> s.winner.Some?)
    && (s.winner.Some? ==> s.winner.value == s.highest.address)
  }

  /**
   * What `close` needs in order not to panic: once a bid was accepted, the
   * leader has a record (the `unwrap`) and its commissions do not exceed the
   * lead (the Uint128 subtraction). `Inv` implies it.
   */
  predicate Settleable(s: Store) {
    s.highest.bid > 0 ==>
      && s.highest.address in s.bidders
      && s.bidders[s.highest.address].count * s.config.commission <= s.highest.bid
  }

  /**
   * What `retract` by `a` needs in order not to panic: when it gets past its
   * three checks, `a`'s commissions do not exceed its deposit. `Inv` implies it.
   */
  predicate Refundable(s: Store, a: Addr) {
    s.closed && a in s.bidders && a != s.highest.address ==>
      s.bidders[a].count * s.config.commission <= s.bidders[a].deposit.amount
  }

  // ---------------------------------------------------------------------------
  // The operations

  /** `_instantiate`: the configuration, the leader seeded as (instantiator, 0), bidding open. */
  function Instantiate(info: MessageInfo, msg: Msg.InstantiateMsg): (r: Step)
    ensures Inv(r.next)
    ensures r.messages == []
  {
    var owner := msg.owner.GetOr(info.sender);
    Step(Store(Config(owner, msg.commission, msg.acceptedToken), HighestBid(info.sender, 0), map[], false, None), [])
  }

  /** `bid`: five ordered checks, then the new leader, the caller's updated record and one commission transfer. */
  function Bid(s: Store, info: MessageInfo): Outcome {
    if s.closed then Failure(BiddingClosed)
    else if info.sender == s.config.owner then Failure(OwnerCantBid)
    else
      var acceptedDenom := s.config.acceptedToken.denom;
      if !AnyDenom(info.funds, acceptedDenom) then Failure(WrongToken)
      else
        var currentBid := Incoming(info.funds, acceptedDenom);
        if currentBid < s.config.commission then Failure(BidUnderCommission)
        else
          var total := currentBid + Prior(s, info.sender);
          if s.highest.bid >= total then Failure(BidTooLow)
          else
            var record :=
              if info.sender !in s.bidders then Record(Coin(acceptedDenom, currentBid), 1)
              else
                var last := s.bidders[info.sender];
                Record(last.deposit.(amount := last.deposit.amount + currentBid), last.count + 1);
            var commissionMsg := Send(s.config.owner, Coin(acceptedDenom, s.config.commission));
            Success(Step(
              s.(highest := HighestBid(info.sender, total), bidders := s.bidders[info.sender := record]),
              [commissionMsg]))
  }

  /** `close`: owner only; records the winner, closes, and settles the leader's net deposit to the owner. */
  function Close(s: Store, info: MessageInfo): Outcome
    requires info.sender == s.config.owner ==> Settleable(s)
  {
    if info.sender != s.config.owner then Failure(Unauthorized)
    else
      var next := s.(winner := Some(s.highest.address), closed := true);
      if s.highest.bid > 0 then
        var nbBid := s.bidders[s.highest.address].count;
        var amountToSend := s.highest.bid - nbBid * s.config.commission;
        Success(Step(next, [Send(s.config.owner, Coin(s.config.acceptedToken.denom, amountToSend))]))
      else
        Success(Step(next, []))
  }

  /** `retract`: after close, a non-leader takes back its deposit net of commissions, once. */
  function Retract(s: Store, info: MessageInfo, receiver: Option<Addr>): Outcome
    requires Refundable(s, info.sender)
  {
    if !s.closed then Failure(BiddingNotClose)
    else if info.sender !in s.bidders then Failure(NothingToRetract)
    else if s.highest.address == info.sender then Failure(WinnerCantRetract)
    else
      var record := s.bidders[info.sender];
      var tokenToSend := record.deposit.amount - record.count * s.config.commission;
      var tokenReceiver := receiver.GetOr(info.sender);
      Success(Step(
        s.(bidders := s.bidders - {info.sender}),
        [Send(tokenReceiver, Coin(s.config.acceptedToken.denom, tokenToSend))]))
  }

  /** `_execute`: dispatch on the message. */
  function Execute(s: Store, info: MessageInfo, msg: Msg.ExecuteMsg): Outcome
    requires msg.Close? && info.sender == s.config.owner ==> Settleable(s)
    requires msg.Retract? ==> Refundable(s, info.sender)
  {
    match msg
    case Bid => Bid(s, info)
    case Close => Close(s, info)
    case Retract(receiver) => Retract(s, info, receiver)
  }

  // ---------------------------------------------------------------------------
  // Properties of the attached-funds rules

  /** A coin in another denomination, wherever it sits among the funds, changes nothing. */
  lemma {:induction false} OtherDenomIgnored(front: seq<Coin>, c: Coin, back: seq<Coin>, denom: string)
    requires c.denom != denom
    ensures AnyDenom(front + [c] + back, denom) == AnyDenom(front + back, denom)
    ensures FindAmount(front + [c] + back, denom) == FindAmount(front + back, denom)
  {
    if front == [] {
      assert front + [c] + back == [c] + back;
      assert ([c] + back)[1..] == back;
      assert front + back == back;
    } else {
      OtherDenomIgnored(front[1..], c, back, denom);
      assert (front + [c] + back)[1..] == front[1..] + [c] + back;
      assert (front + back)[1..] == front[1..] + back;
    }
  }

  // ---------------------------------------------------------------------------
  // Properties of `bid`

  /**
   * `bid` fails with exactly one error, chosen by the first failed check in
   * the order: closed, owner, denomination, under commission, not highest.
   */
  lemma BidChecksInOrder(s: Store, info: MessageInfo)
    ensures s.closed <==> Bid(s, info) == Failure(BiddingClosed)
    ensures !s.closed && info.sender == s.config.owner <==> Bid(s, info) == Failure(OwnerCantBid)
    ensures && !s.closed && info.sender != s.config.owner
            && (forall i | 0 <= i < |info.funds| :: info.funds[i].denom != s.config.acceptedToken.denom)
            <==> Bid(s, info) == Failure(WrongToken)
    ensures && !s.closed && info.sender != s.config.owner
            && AnyDenom(info.funds, s.config.acceptedToken.denom)
            && Incoming(info.funds, s.config.acceptedToken.denom) < s.config.commission
            <==> Bid(s, info) == Failure(BidUnderCommission)
    ensures && !s.closed && info.sender != s.config.owner
            && AnyDenom(info.funds, s.config.acceptedToken.denom)
            && Incoming(info.funds, s.config.acceptedToken.denom) >= s.config.commission
            && Incoming(info.funds, s.config.acceptedToken.denom) + Prior(s, info.sender) <= s.highest.bid
            <==> Bid(s, info) == Failure(BidTooLow)
    ensures Bid(s, info).Failure? ==>
              Bid(s, info).error in {BiddingClosed, OwnerCantBid, WrongToken, BidUnderCommission, BidTooLow}
  {
  }

  /**
   * A successful bid: the caller leads with its new cumulative total, which
   * is strictly above the previous lead; its record gains the incoming
   * amount and one count; nothing else in the store changes; and the only
   * transfer is one commission, in the accepted denomination, to the owner.
   */
  lemma BidAccepted(s: Store, info: MessageInfo)
    requires Bid(s, info).Success?
    ensures var step := Bid(s, info).value;
            var x := Incoming(info.funds, s.config.acceptedToken.denom);
            && x >= s.config.commission
            && step.next.highest == HighestBid(info.sender, Prior(s, info.sender) + x)
            && step.next.highest.bid > s.highest.bid
            && step.next.bidders.Keys == s.bidders.Keys + {info.sender}
            && step.next.bidders[info.sender].deposit.amount == Prior(s, info.sender) + x
            && step.next.bidders[info.sender].count
               == (if info.sender in s.bidders then s.bidders[info.sender].count + 1 else 1)
            && (forall a | a in s.bidders && a != info.sender :: step.next.bidders[a] == s.bidders[a])
            && step.next.config == s.config && !step.next.closed && step.next.winner == s.winner
            && step.messages == [Send(s.config.owner, Coin(s.config.acceptedToken.denom, s.config.commission))]
  {
  }

  /** A bid that only ties the lead is refused: the earlier leader keeps the lead. */
  lemma TieKeepsLeader(s: Store, info: MessageInfo)
    requires !s.closed && info.sender != s.config.owner
    requires AnyDenom(info.funds, s.config.acceptedToken.denom)
    requires Incoming(info.funds, s.config.acceptedToken.denom) >= s.config.commission
    requires Incoming(info.funds, s.config.acceptedToken.denom) + Prior(s, info.sender) == s.highest.bid
    ensures Bid(s, info) == Failure(BidTooLow)
    ensures Apply(s, Bid(s, info)).highest == s.highest
  {
  }

  /** `bid` keeps the accounting invariant. */
  lemma BidPreservesInv(s: Store, info: MessageInfo)
    requires Inv(s)
    ensures Inv(Apply(s, Bid(s, info)))
  {
  }

  // ---------------------------------------------------------------------------
  // Properties of `close`

  /**
   * `close` by anyone but the owner is refused and writes nothing; by the
   * owner it stores the leader as winner and closes bidding, and settles
   * the leader's deposit net of the commissions already paid to the owner,
   * so that settlement and commissions together give the owner the whole
   * leading bid. With no bid ever accepted it settles nothing.
   */
  lemma CloseSettles(s: Store, info: MessageInfo)
    requires Inv(s)
    ensures info.sender != s.config.owner <==> Close(s, info) == Failure(Unauthorized)
    ensures Close(s, info).Failure? ==> Apply(s, Close(s, info)) == s
    ensures info.sender == s.config.owner ==>
              && Close(s, info).Success?
              && Close(s, info).value.next == s.(winner := Some(s.highest.address), closed := true)
              && (s.highest.bid == 0 ==> Close(s, info).value.messages == [])
              && (s.highest.bid > 0 ==>
                    exists net: nat ::
                      && Close(s, info).value.messages
                         == [Send(s.config.owner, Coin(s.config.acceptedToken.denom, net))]
                      && net + s.bidders[s.highest.address].count * s.config.commission == s.highest.bid)
  {
  }

  /** `close` keeps the accounting invariant, so its subtraction never underflows. */
  lemma ClosePreservesInv(s: Store, info: MessageInfo)
    requires Inv(s)
    ensures Inv(Apply(s, Close(s, info)))
  {
  }

  /**
   * `close` is not guarded against a second call: repeated by the owner it
   * leaves the store as the first call did and emits the same settlement again.
   */
  lemma CloseTwiceResettles(s: Store, info: MessageInfo)
    requires Inv(s) && info.sender == s.config.owner
    ensures var first := Close(s, info);
            var t := Apply(s, first);
            Inv(t) && Close(t, info) == first
  {
  }

  // ---------------------------------------------------------------------------
  // Properties of `retract`

  /**
   * `retract` fails, in this order: not closed, no record, caller is the
   * leader. No other error is possible: past the three checks it succeeds.
   */
  lemma RetractChecksInOrder(s: Store, info: MessageInfo, receiver: Option<Addr>)
    requires Inv(s)
    ensures !s.closed <==> Retract(s, info, receiver) == Failure(BiddingNotClose)
    ensures s.closed && info.sender !in s.bidders <==> Retract(s, info, receiver) == Failure(NothingToRetract)
    ensures s.closed && info.sender in s.bidders && info.sender == s.highest.address
            <==> Retract(s, info, receiver) == Failure(WinnerCantRetract)
    ensures s.closed && info.sender in s.bidders && info.sender != s.highest.address
            <==> Retract(s, info, receiver).Success?
    ensures Retract(s, info, receiver).Failure? ==>
              Retract(s, info, receiver).error in {BiddingNotClose, NothingToRetract, WinnerCantRetract}
    ensures Retract(s, info, receiver).Failure? ==> Apply(s, Retract(s, info, receiver)) == s
  {
  }

  /**
   * A successful retract pays the caller's deposit net of its commissions
   * to the chosen receiver (the caller by default) and deletes only the
   * caller's record; the payout and the commissions already paid together
   * make up exactly what the caller deposited.
   */
  lemma RetractRefunds(s: Store, info: MessageInfo, receiver: Option<Addr>)
    requires Inv(s)
    requires Retract(s, info, receiver).Success?
    ensures var step := Retract(s, info, receiver).value;
            var r := s.bidders[info.sender];
            && step.next == s.(bidders := s.bidders - {info.sender})
            && |step.messages| == 1
            && step.messages[0].toAddress == (if receiver.Some? then receiver.value else info.sender)
            && step.messages[0].amount.denom == s.config.acceptedToken.denom
            && step.messages[0].amount.amount + r.count * s.config.commission == r.deposit.amount
  {
  }

  /** `retract` keeps the accounting invariant, so its subtraction never underflows. */
  lemma RetractPreservesInv(s: Store, info: MessageInfo, receiver: Option<Addr>)
    requires Inv(s)
    ensures Inv(Apply(s, Retract(s, info, receiver)))
  {
  }

  /** A retract that succeeded cannot be repeated: the second one finds nothing to retract. */
  lemma RetractOnce(s: Store, info: MessageInfo, receiver: Option<Addr>, again: Option<Addr>)
    requires Inv(s)
    requires Retract(s, info, receiver).Success?
    ensures var t := Apply(s, Retract(s, info, receiver));
            Inv(t) && Retract(t, info, again) == Failure(NothingToRetract)
  {
  }

  /**
   * The stored winner can never retract. `retract` compares the caller with
   * the leader rather than with the stored winner; under `Inv` the two are
   * the same address once bidding is closed.
   */
  lemma WinnerNeverRetracts(s: Store, info: MessageInfo, receiver: Option<Addr>)
    requires Inv(s) && s.winner == Some(info.sender)
    ensures Retract(s, info, receiver).Failure?
    ensures s.highest.bid > 0 ==> Retract(s, info, receiver) == Failure(WinnerCantRetract)
  {
  }

  // ---------------------------------------------------------------------------
  // Every operation

  /** Every dispatched call keeps the accounting invariant. */
  lemma ExecutePreservesInv(s: Store, info: MessageInfo, msg: Msg.ExecuteMsg)
    requires Inv(s)
    ensures Inv(Apply(s, Execute(s, info, msg)))
  {
  }

  /** No operation changes the configuration, and none lowers the leading bid. */
  lemma ExecuteKeepsConfigAndLead(s: Store, info: MessageInfo, msg: Msg.ExecuteMsg)
    requires Inv(s)
    ensures Apply(s, Execute(s, info, msg)).config == s.config
    ensures Apply(s, Execute(s, info, msg)).highest.bid >= s.highest.bid
  {
  }

  /** Once closed, every call leaves the flag, the leader and the winner as they were; every bid fails. */
  lemma ClosedIsFinalStep(s: Store, info: MessageInfo, msg: Msg.ExecuteMsg)
    requires Inv(s) && s.closed
    ensures var t := Apply(s, Execute(s, info, msg));
            t.closed && t.highest == s.highest && t.winner == s.winner
    ensures msg.Bid? ==> Execute(s, info, msg) == Failure(BiddingClosed)
  {
  }

  /** The amount inside the configured token is stored but never read: changing it changes no response. */
  lemma AcceptedAmountIgnored(s: Store, info: MessageInfo, msg: Msg.ExecuteMsg, amount: nat)
    requires Inv(s)
    ensures var s' := s.(config := s.config.(acceptedToken := s.config.acceptedToken.(amount := amount)));
            && Inv(s')
            && Response(Execute(s', info, msg)) == Response(Execute(s, info, msg))
            && Apply(s', Execute(s', info, msg)) == Apply(s, Execute(s, info, msg)).(config := s'.config)
  {
  }
}
