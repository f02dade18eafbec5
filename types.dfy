/**
 * The host-chain types the contract works with: addresses, native coins,
 * the bank transfer a response may carry, the caller information every
 * call receives, and the storage error a query can surface.
 */
module Types {

  /** An account address; validation is done by the host and not modelled. */
  type Addr = string

  /** A native token amount in one denomination (Uint128 modelled as nat). */
  datatype Coin = Coin(denom: string, amount: nat)

  /**
   * `BankMsg::Send`: a transfer the host executes once the call succeeds.
   * Every transfer this contract emits carries exactly one coin, so the
   * coin vector is modelled as a single coin.
   */
  datatype BankMsg = Send(toAddress: Addr, amount: Coin)

  /** `MessageInfo`: the authenticated caller and the coins attached to the call. */
  datatype MessageInfo = MessageInfo(sender: Addr, funds: seq<Coin>)

  /** The only storage error a query can raise here: a key that holds nothing. */
  datatype StdError = NotFound(kind: string)
}
