/**
 * Runs: sequences of execute calls applied one after another, each call
 * atomic (a failed call writes nothing). The lemmas here are the
 * properties that hold across any interleaving of callers.
 */
module Trace {
  import opened Wrappers
  import opened Types
  import opened State
  import opened Errors
  import opened Ledger
  import Msg

  /** One execute call: who calls, with which funds, and which message. */
  datatype Call = Call(info: MessageInfo, msg: Msg.ExecuteMsg)

  /** The store after a run and the response each call received, in order. */
  datatype Run = Run(final: Store, responses: seq<Result<seq<BankMsg>, BidError>>)

  /** The calls applied in order from `s`; every store along the way satisfies `Inv`. */
  function Replay(s: Store, calls: seq<Call>): (r: Run)
    requires Inv(s)
    ensures Inv(r.final) && |r.responses| == |calls|
    decreases |calls|
  {
    if calls == [] then Run(s, [])
    else
      var o := Execute(s, calls[0].info, calls[0].msg);
      ExecutePreservesInv(s, calls[0].info, calls[0].msg);
      var rest := Replay(Apply(s, o), calls[1..]);
      Run(rest.final, [Response(o)] + rest.responses)
  }

  /** How many calls in a run were successful retracts by `a`. */
  function RetractsBy(calls: seq<Call>, responses: seq<Result<seq<BankMsg>, BidError>>, a: Addr): nat
    requires |responses| == |calls|
  {
    if calls == [] then 0
    else
      (if calls[0].info.sender == a && calls[0].msg.Retract? && responses[0].Success? then 1 else 0)
      + RetractsBy(calls[1..], responses[1..], a)
  }

  /** Along any run the configuration never changes and the leading bid never decreases. */
  lemma {:induction false} ConfigFixedLeadMonotone(s: Store, calls: seq<Call>)
    requires Inv(s)
    ensures Replay(s, calls).final.config == s.config
    ensures Replay(s, calls).final.highest.bid >= s.highest.bid
    decreases |calls|
  {
    if calls != [] {
      var c := calls[0];
      ExecuteKeepsConfigAndLead(s, c.info, c.msg);
      ExecutePreservesInv(s, c.info, c.msg);
      ConfigFixedLeadMonotone(Apply(s, Execute(s, c.info, c.msg)), calls[1..]);
    }
  }

  /**
   * Closing is final: from a closed store every run stays closed with the
   * same leader and winner, and every bid in it fails with `BiddingClosed`.
   */
  lemma {:induction false} ClosedIsFinal(s: Store, calls: seq<Call>)
    requires Inv(s) && s.closed
    ensures var r := Replay(s, calls);
            r.final.closed && r.final.highest == s.highest && r.final.winner == s.winner
    ensures forall i | 0 <= i < |calls| && calls[i].msg.Bid? :: Replay(s, calls).responses[i] == Failure(BiddingClosed)
    decreases |calls|
  {
    if calls != [] {
      var c := calls[0];
      ClosedIsFinalStep(s, c.info, c.msg);
      ExecutePreservesInv(s, c.info, c.msg);
      var t := Apply(s, Execute(s, c.info, c.msg));
      ClosedIsFinal(t, calls[1..]);
      var r := Replay(s, calls);
      forall i | 0 <= i < |calls| && calls[i].msg.Bid? ensures r.responses[i] == Failure(BiddingClosed) {
        if i > 0 {
          assert calls[i] == calls[1..][i - 1];
        }
      }
    }
  }

  /** Once closed, a bidder without a record never gets one back and never retracts again. */
  lemma {:induction false} GoneStaysGone(s: Store, calls: seq<Call>, a: Addr)
    requires Inv(s) && s.closed && a !in s.bidders
    ensures a !in Replay(s, calls).final.bidders
    ensures RetractsBy(calls, Replay(s, calls).responses, a) == 0
    decreases |calls|
  {
    if calls != [] {
      var c := calls[0];
      ExecutePreservesInv(s, c.info, c.msg);
      ClosedIsFinalStep(s, c.info, c.msg);
      var t := Apply(s, Execute(s, c.info, c.msg));
      GoneStaysGone(t, calls[1..], a);
    }
  }

  /** At most once: in any run, no more than one retract by a given caller succeeds. */
  lemma {:induction false} RetractsAtMostOnce(s: Store, calls: seq<Call>, a: Addr)
    requires Inv(s)
    ensures RetractsBy(calls, Replay(s, calls).responses, a) <= 1
    decreases |calls|
  {
    if calls != [] {
      var c := calls[0];
      var o := Execute(s, c.info, c.msg);
      ExecutePreservesInv(s, c.info, c.msg);
      var t := Apply(s, o);
      if c.info.sender == a && c.msg.Retract? && o.Success? {
        GoneStaysGone(t, calls[1..], a);
      } else {
        RetractsAtMostOnce(t, calls[1..], a);
      }
    }
  }

  /**
   * Exactly once: after close, a bidder with a record that is not the leader
   * keeps that record until it retracts, so in any run that contains a
   * retract by it, exactly one of them succeeds.
   */
  lemma {:induction false} RetractsExactlyOnce(s: Store, calls: seq<Call>, a: Addr, i: nat)
    requires Inv(s) && s.closed && a in s.bidders && a != s.highest.address
    requires i < |calls| && calls[i].info.sender == a && calls[i].msg.Retract?
    ensures RetractsBy(calls, Replay(s, calls).responses, a) == 1
    decreases |calls|
  {
    var c := calls[0];
    var o := Execute(s, c.info, c.msg);
    ExecutePreservesInv(s, c.info, c.msg);
    ClosedIsFinalStep(s, c.info, c.msg);
    var t := Apply(s, o);
    if c.info.sender == a && c.msg.Retract? {
      RetractChecksInOrder(s, c.info, c.msg.receiver);
      RetractRefunds(s, c.info, c.msg.receiver);
      GoneStaysGone(t, calls[1..], a);
    } else {
      assert a in t.bidders;
      assert calls[1..][i - 1] == calls[i];
      RetractsExactlyOnce(t, calls[1..], a, i - 1);
    }
  }
}
