/**
 * The persisted state: the five storage slots of one auction instance.
 */
module State {
  import opened Wrappers
  import opened Types

  /** `CONFIG`: written once at setup. */
  datatype Config = Config(owner: Addr, commission: nat, acceptedToken: Coin)

  /** `HIGHEST_BID`: the current leader and its cumulative bid. */
  datatype HighestBid = HighestBid(address: Addr, bid: nat)

  /** A `BIDDERS` entry: the cumulative deposit and how many bids were accepted. */
  datatype Record = Record(deposit: Coin, count: nat)

  /**
   * The whole store as one value: `CONFIG`, `HIGHEST_BID`, `BIDDERS`,
   * `IS_BIDDING_CLOSED` and `BID_WINNER` (absent until the first close).
   */
  datatype Store = Store(
    config: Config,
    highest: HighestBid,
    bidders: map<Addr, Record>,
    closed: bool,
    winner: Option<Addr>)
}
