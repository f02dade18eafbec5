/**
 * The end-to-end runs of the contract's own test suite, stated as lemmas
 * about the reference functions: which calls fail with which error, which
 * transfers the successful ones emit, and what the queries then answer.
 */
module Scenarios {
  import opened Wrappers
  import opened Types
  import opened State
  import opened Errors
  import opened Ledger
  import opened Trace
  import Msg
  import Query
  import Contract

  const Atom: string := "atom"

  /** Setup by "instantiator" naming "owner" as owner, with the given commission in atom. */
  function Setup(commission: nat): (s: Store)
    ensures Inv(s)
  {
    Instantiate(MessageInfo("instantiator", []), Msg.InstantiateMsg(Some("owner"), commission, Coin(Atom, 0))).next
  }

  function BidCall(sender: Addr, amount: nat, denom: string): Call {
    Call(MessageInfo(sender, [Coin(denom, amount)]), Msg.Bid)
  }

  function CloseCall(sender: Addr): Call {
    Call(MessageInfo(sender, []), Msg.Close)
  }

  function RetractCall(sender: Addr, receiver: Option<Addr>): Call {
    Call(MessageInfo(sender, []), Msg.Retract(receiver))
  }

  function Pay(to: Addr, amount: nat): Result<seq<BankMsg>, BidError> {
    Success([Send(to, Coin(Atom, amount))])
  }

  /** The full workflow: three bidders, commission 2, every error path, close and retracts. */
  function WorkflowCalls(): seq<Call> {
    [ BidCall("owner", 5, Atom),
      BidCall("baddenom", 5, "notatom"),
      BidCall("bidderpoor", 1, Atom),
      BidCall("bidder1", 10, Atom),
      BidCall("bidder2", 10, Atom),
      BidCall("bidder2", 20, Atom),
      BidCall("bidder3", 25, Atom),
      BidCall("bidder1", 20, Atom),
      BidCall("bidder3", 20, Atom),
      CloseCall("owner"),
      BidCall("bidder1", 5, Atom),
      RetractCall("bidder1", None),
      RetractCall("bidder2", Some("bidderpoor")),
      RetractCall("bidder3", None) ]
  }

  function Rec(amount: nat, count: nat): Record {
    Record(Coin(Atom, amount), count)
  }

  // S<k> is the store after the first k calls; calls that fail leave it as it was.
  // Each is a reachable store, so each satisfies the invariant.

  function S0(): (s: Store)
    ensures Inv(s)
  {
    Setup(2)
  }

  function S4(): (s: Store)
    ensures Inv(s)
  {
    S0().(highest := HighestBid("bidder1", 10), bidders := map["bidder1" := Rec(10, 1)])
  }

  function S6(): (s: Store)
    ensures Inv(s)
  {
    S4().(highest := HighestBid("bidder2", 20), bidders := S4().bidders["bidder2" := Rec(20, 1)])
  }

  function S7(): (s: Store)
    ensures Inv(s)
  {
    S6().(highest := HighestBid("bidder3", 25), bidders := S6().bidders["bidder3" := Rec(25, 1)])
  }

  function S8(): (s: Store)
    ensures Inv(s)
  {
    S7().(highest := HighestBid("bidder1", 30), bidders := S7().bidders["bidder1" := Rec(30, 2)])
  }

  function S9(): (s: Store)
    ensures Inv(s)
  {
    S8().(highest := HighestBid("bidder3", 45), bidders := S8().bidders["bidder3" := Rec(45, 2)])
  }

  function S10(): (s: Store)
    ensures Inv(s)
  {
    S9().(closed := true, winner := Some("bidder3"))
  }

  function S12(): (s: Store)
    ensures Inv(s)
  {
    S10().(bidders := S10().bidders - {"bidder1"})
  }

  function S13(): (s: Store)
    ensures Inv(s)
  {
    S12().(bidders := S12().bidders - {"bidder2"})
  }

  // Call k of the workflow, on the store it meets: its response and the store it leaves.

  lemma WorkflowCall0()
    ensures var c := WorkflowCalls()[0];
            var o := Execute(S0(), c.info, c.msg);
            Response(o) == Failure(OwnerCantBid) && Apply(S0(), o) == S0()
  {
  }

  lemma WorkflowCall1()
    ensures var c := WorkflowCalls()[1];
            var o := Execute(S0(), c.info, c.msg);
            Response(o) == Failure(WrongToken) && Apply(S0(), o) == S0()
  {
  }

  lemma WorkflowCall2()
    ensures var c := WorkflowCalls()[2];
            var o := Execute(S0(), c.info, c.msg);
            Response(o) == Failure(BidUnderCommission) && Apply(S0(), o) == S0()
  {
  }

  lemma WorkflowCall3()
    ensures var c := WorkflowCalls()[3];
            var o := Execute(S0(), c.info, c.msg);
            Response(o) == Pay("owner", 2) && Apply(S0(), o) == S4()
  {
  }

  lemma WorkflowCall4()
    ensures var c := WorkflowCalls()[4];
            var o := Execute(S4(), c.info, c.msg);
            Response(o) == Failure(BidTooLow) && Apply(S4(), o) == S4()
  {
  }

  lemma WorkflowCall5()
    ensures var c := WorkflowCalls()[5];
            var o := Execute(S4(), c.info, c.msg);
            Response(o) == Pay("owner", 2) && Apply(S4(), o) == S6()
  {
  }

  lemma WorkflowCall6()
    ensures var c := WorkflowCalls()[6];
            var o := Execute(S6(), c.info, c.msg);
            Response(o) == Pay("owner", 2) && Apply(S6(), o) == S7()
  {
  }

  lemma WorkflowCall7()
    ensures var c := WorkflowCalls()[7];
            var o := Execute(S7(), c.info, c.msg);
            Response(o) == Pay("owner", 2) && Apply(S7(), o) == S8()
  {
  }

  lemma WorkflowCall8()
    ensures var c := WorkflowCalls()[8];
            var o := Execute(S8(), c.info, c.msg);
            Response(o) == Pay("owner", 2) && Apply(S8(), o) == S9()
  {
  }

  lemma WorkflowCall9()
    ensures var c := WorkflowCalls()[9];
            var o := Execute(S9(), c.info, c.msg);
            Response(o) == Pay("owner", 41) && Apply(S9(), o) == S10()
  {
  }

  lemma WorkflowCall10()
    ensures var c := WorkflowCalls()[10];
            var o := Execute(S10(), c.info, c.msg);
            Response(o) == Failure(BiddingClosed) && Apply(S10(), o) == S10()
  {
  }

  lemma WorkflowCall11()
    ensures var c := WorkflowCalls()[11];
            var o := Execute(S10(), c.info, c.msg);
            Response(o) == Pay("bidder1", 26) && Apply(S10(), o) == S12()
  {
  }

  lemma WorkflowCall12()
    ensures var c := WorkflowCalls()[12];
            var o := Execute(S12(), c.info, c.msg);
            Response(o) == Pay("bidderpoor", 18) && Apply(S12(), o) == S13()
  {
  }

  lemma WorkflowCall13()
    ensures var c := WorkflowCalls()[13];
            var o := Execute(S13(), c.info, c.msg);
            Response(o) == Failure(WinnerCantRetract) && Apply(S13(), o) == S13()
  {
  }

  /** The run from `s` over `calls[k..]`: the response of call `k`, then the run from the store it leaves. */
  lemma ReplayStep(s: Store, calls: seq<Call>, k: nat)
    requires Inv(s) && k < |calls|
    ensures var o := Execute(s, calls[k].info, calls[k].msg);
            && Inv(Apply(s, o))
            && Replay(s, calls[k..]).responses == [Response(o)] + Replay(Apply(s, o), calls[k + 1..]).responses
            && Replay(s, calls[k..]).final == Replay(Apply(s, o), calls[k + 1..]).final
  {
    ExecutePreservesInv(s, calls[k].info, calls[k].msg);
    assert calls[k..][0] == calls[k] && calls[k..][1..] == calls[k + 1..];
  }

  /** The responses the test suite expects, call by call. */
  function WorkflowResponses(): seq<Result<seq<BankMsg>, BidError>> {
    [ Failure(OwnerCantBid), Failure(WrongToken), Failure(BidUnderCommission),
      Pay("owner", 2), Failure(BidTooLow), Pay("owner", 2), Pay("owner", 2),
      Pay("owner", 2), Pay("owner", 2),
      Pay("owner", 41),
      Failure(BiddingClosed),
      Pay("bidder1", 26), Pay("bidderpoor", 18),
      Failure(WinnerCantRetract) ]
  }

  // The workflow from call k on, given the store before call k.

  lemma WorkflowFrom14(s: Store, calls: seq<Call>)
    requires s == S13() && calls == WorkflowCalls()
    ensures Replay(s, calls[14..]) == Run(S13(), WorkflowResponses()[14..])
  {
    assert calls[14..] == [];
    assert WorkflowResponses()[14..] == [];
  }

  lemma WorkflowFrom13(s: Store, calls: seq<Call>)
    requires s == S13() && calls == WorkflowCalls()
    ensures Replay(s, calls[13..]) == Run(S13(), WorkflowResponses()[13..])
  {
    WorkflowCall13();
    ReplayStep(s, calls, 13);
    WorkflowFrom14(Apply(s, Execute(s, calls[13].info, calls[13].msg)), calls);
    assert WorkflowResponses()[13..] == [WorkflowResponses()[13]] + WorkflowResponses()[14..];
  }

  lemma WorkflowFrom12(s: Store, calls: seq<Call>)
    requires s == S12() && calls == WorkflowCalls()
    ensures Replay(s, calls[12..]) == Run(S13(), WorkflowResponses()[12..])
  {
    WorkflowCall12();
    ReplayStep(s, calls, 12);
    WorkflowFrom13(Apply(s, Execute(s, calls[12].info, calls[12].msg)), calls);
    assert WorkflowResponses()[12..] == [WorkflowResponses()[12]] + WorkflowResponses()[13..];
  }

  lemma WorkflowFrom11(s: Store, calls: seq<Call>)
    requires s == S10() && calls == WorkflowCalls()
    ensures Replay(s, calls[11..]) == Run(S13(), WorkflowResponses()[11..])
  {
    WorkflowCall11();
    ReplayStep(s, calls, 11);
    WorkflowFrom12(Apply(s, Execute(s, calls[11].info, calls[11].msg)), calls);
    assert WorkflowResponses()[11..] == [WorkflowResponses()[11]] + WorkflowResponses()[12..];
  }

  lemma WorkflowFrom10(s: Store, calls: seq<Call>)
    requires s == S10() && calls == WorkflowCalls()
    ensures Replay(s, calls[10..]) == Run(S13(), WorkflowResponses()[10..])
  {
    WorkflowCall10();
    ReplayStep(s, calls, 10);
    WorkflowFrom11(Apply(s, Execute(s, calls[10].info, calls[10].msg)), calls);
    assert WorkflowResponses()[10..] == [WorkflowResponses()[10]] + WorkflowResponses()[11..];
  }

  lemma WorkflowFrom9(s: Store, calls: seq<Call>)
    requires s == S9() && calls == WorkflowCalls()
    ensures Replay(s, calls[9..]) == Run(S13(), WorkflowResponses()[9..])
  {
    WorkflowCall9();
    ReplayStep(s, calls, 9);
    WorkflowFrom10(Apply(s, Execute(s, calls[9].info, calls[9].msg)), calls);
    assert WorkflowResponses()[9..] == [WorkflowResponses()[9]] + WorkflowResponses()[10..];
  }

  lemma WorkflowFrom8(s: Store, calls: seq<Call>)
    requires s == S8() && calls == WorkflowCalls()
    ensures Replay(s, calls[8..]) == Run(S13(), WorkflowResponses()[8..])
  {
    WorkflowCall8();
    ReplayStep(s, calls, 8);
    WorkflowFrom9(Apply(s, Execute(s, calls[8].info, calls[8].msg)), calls);
    assert WorkflowResponses()[8..] == [WorkflowResponses()[8]] + WorkflowResponses()[9..];
  }

  lemma WorkflowFrom7(s: Store, calls: seq<Call>)
    requires s == S7() && calls == WorkflowCalls()
    ensures Replay(s, calls[7..]) == Run(S13(), WorkflowResponses()[7..])
  {
    WorkflowCall7();
    ReplayStep(s, calls, 7);
    WorkflowFrom8(Apply(s, Execute(s, calls[7].info, calls[7].msg)), calls);
    assert WorkflowResponses()[7..] == [WorkflowResponses()[7]] + WorkflowResponses()[8..];
  }

  lemma WorkflowFrom6(s: Store, calls: seq<Call>)
    requires s == S6() && calls == WorkflowCalls()
    ensures Replay(s, calls[6..]) == Run(S13(), WorkflowResponses()[6..])
  {
    WorkflowCall6();
    ReplayStep(s, calls, 6);
    WorkflowFrom7(Apply(s, Execute(s, calls[6].info, calls[6].msg)), calls);
    assert WorkflowResponses()[6..] == [WorkflowResponses()[6]] + WorkflowResponses()[7..];
  }

  lemma WorkflowFrom5(s: Store, calls: seq<Call>)
    requires s == S4() && calls == WorkflowCalls()
    ensures Replay(s, calls[5..]) == Run(S13(), WorkflowResponses()[5..])
  {
    WorkflowCall5();
    ReplayStep(s, calls, 5);
    WorkflowFrom6(Apply(s, Execute(s, calls[5].info, calls[5].msg)), calls);
    assert WorkflowResponses()[5..] == [WorkflowResponses()[5]] + WorkflowResponses()[6..];
  }

  lemma WorkflowFrom4(s: Store, calls: seq<Call>)
    requires s == S4() && calls == WorkflowCalls()
    ensures Replay(s, calls[4..]) == Run(S13(), WorkflowResponses()[4..])
  {
    WorkflowCall4();
    ReplayStep(s, calls, 4);
    WorkflowFrom5(Apply(s, Execute(s, calls[4].info, calls[4].msg)), calls);
    assert WorkflowResponses()[4..] == [WorkflowResponses()[4]] + WorkflowResponses()[5..];
  }

  lemma WorkflowFrom3(s: Store, calls: seq<Call>)
    requires s == S0() && calls == WorkflowCalls()
    ensures Replay(s, calls[3..]) == Run(S13(), WorkflowResponses()[3..])
  {
    WorkflowCall3();
    ReplayStep(s, calls, 3);
    WorkflowFrom4(Apply(s, Execute(s, calls[3].info, calls[3].msg)), calls);
    assert WorkflowResponses()[3..] == [WorkflowResponses()[3]] + WorkflowResponses()[4..];
  }

  lemma WorkflowFrom2(s: Store, calls: seq<Call>)
    requires s == S0() && calls == WorkflowCalls()
    ensures Replay(s, calls[2..]) == Run(S13(), WorkflowResponses()[2..])
  {
    WorkflowCall2();
    ReplayStep(s, calls, 2);
    WorkflowFrom3(Apply(s, Execute(s, calls[2].info, calls[2].msg)), calls);
    assert WorkflowResponses()[2..] == [WorkflowResponses()[2]] + WorkflowResponses()[3..];
  }

  lemma WorkflowFrom1(s: Store, calls: seq<Call>)
    requires s == S0() && calls == WorkflowCalls()
    ensures Replay(s, calls[1..]) == Run(S13(), WorkflowResponses()[1..])
  {
    WorkflowCall1();
    ReplayStep(s, calls, 1);
    WorkflowFrom2(Apply(s, Execute(s, calls[1].info, calls[1].msg)), calls);
    assert WorkflowResponses()[1..] == [WorkflowResponses()[1]] + WorkflowResponses()[2..];
  }

  /**
   * The owner receives five commissions of 2 and then 45 - 2 * 2 = 41 at
   * close; bidder1 gets back 30 - 2 * 2 = 26; bidder2's chosen receiver
   * gets 20 - 2 = 18; the winner bidder3 cannot retract.
   */
  lemma FullWorkflow(s: Store, calls: seq<Call>)
    requires s == S0() && calls == WorkflowCalls()
    ensures Replay(s, calls) == Run(S13(), WorkflowResponses())
  {
    var o := Execute(s, calls[0].info, calls[0].msg);
    assert Response(o) == Failure(OwnerCantBid) && Apply(s, o) == s by {
      WorkflowCall0();
    }
    var rest := Replay(s, calls[1..]);
    assert Replay(s, calls) == Run(rest.final, [Response(o)] + rest.responses) by {
      ReplayStep(s, calls, 0);
      assert calls[0..] == calls;
    }
    assert rest == Run(S13(), WorkflowResponses()[1..]) by {
      WorkflowFrom1(s, calls);
    }
    assert WorkflowResponses() == [WorkflowResponses()[0]] + WorkflowResponses()[1..];
  }

  /** After the workflow the queries report bidder3 as leader and winner; bidder1's record is gone. */
  lemma WorkflowQueries()
    ensures Query.GetHighestBid(S13()) == Success(HighestBid("bidder3", 45))
    ensures Query.IsBiddingClosed(S13()) == Success(true)
    ensures Query.GetWinningBidder(S13()) == Success("bidder3")
    ensures Query.GetTotalBidAddr(S13(), "bidder1").Failure?
    ensures Query.GetTotalBidAddr(S13(), "bidder3") == Success(45)
  {
  }

  /** Setup with commission 5: open at first; a stranger's close is refused; the owner's close closes. */
  lemma CloseByOwnerOnly(s: Store)
    requires s == Setup(5)
    ensures Query.IsBiddingClosed(s) == Success(false)
    ensures Close(s, MessageInfo("notowner", [])) == Failure(Unauthorized)
    ensures Close(s, MessageInfo("owner", [])).Success?
    ensures Query.IsBiddingClosed(Apply(s, Close(s, MessageInfo("owner", [])))) == Success(true)
  {
  }

  lemma AcceptedDenomIsAtom(s: Store)
    requires s == Setup(5)
    ensures Query.GetAcceptedDenom(s) == Success("atom")
  {
  }

  /**
   * Closing before any bid: no winner yet before, the instantiator (the
   * seeded leader, not the owner) afterwards, and nothing is settled.
   */
  lemma InstantCloseWinner(s: Store)
    requires s == Setup(5)
    ensures Query.GetWinningBidder(s) == Success("nowinneryet")
    ensures Close(s, MessageInfo("owner", [])) == Success(Step(s.(closed := true, winner := Some("instantiator")), []))
    ensures Query.GetWinningBidder(Apply(s, Close(s, MessageInfo("owner", [])))) == Success("instantiator")
  {
  }

  /** A single bid of 4 with commission 1, then close: "bidder" wins and the owner is paid 4 - 1 = 3. */
  lemma BidThenCloseWinner(s: Store, bid: Outcome)
    requires s == Setup(1) && bid == Bid(s, MessageInfo("bidder", [Coin(Atom, 4)]))
    ensures bid == Success(Step(
              s.(highest := HighestBid("bidder", 4), bidders := map["bidder" := Rec(4, 1)]),
              [Send("owner", Coin(Atom, 1))]))
    ensures var t := Apply(s, bid);
            Inv(t) && Response(Close(t, MessageInfo("owner", []))) == Pay("owner", 3)
    ensures var t := Apply(s, bid);
            Inv(t) && Query.GetWinningBidder(Apply(t, Close(t, MessageInfo("owner", [])))) == Success("bidder")
  {
    BidPreservesInv(s, MessageInfo("bidder", [Coin(Atom, 4)]));
  }

  /** The instant-close test run against the contract object: no transfer, and the instantiator wins. */
  method InstantCloseOnContract() returns (close: Result<seq<BankMsg>, BidError>, winner: Result<Addr, StdError>)
    ensures close == Success([])
    ensures winner == Success("instantiator")
  {
    var auction := new Contract.Auction(
      MessageInfo("instantiator", []),
      Msg.InstantiateMsg(Some("owner"), 5, Coin(Atom, 0)));
    close := auction.Close(MessageInfo("owner", []));
    winner := Query.GetWinningBidder(auction.Storage());
  }
}
