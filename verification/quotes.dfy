/** The price lookup the monitor and the pages perform for each ticker. */
module Quotes {
  import opened Wrappers

  /** The latest close of a ticker; `None` when the lookup raises. */
  type Quote = string -> Option<real>
}
