/** The contract's error taxonomy, one constructor per `BidError` variant. */
module Errors {

  datatype BidError =
    | BiddingClosed
    | WrongToken
    | OwnerCantBid
    | BidUnderCommission
    | BidTooLow
    | Unauthorized
    | NothingToRetract
    | BiddingNotClose
    | WinnerCantRetract
}
