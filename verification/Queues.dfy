/** The queue records that blocks exchange. */
module Queues {

  /** A queue record on its way from block `from` to block `to`, which lives on process `proc`. */
  datatype Rec = Rec(from: int, to: int, proc: nat, payload: seq<int>, blobs: seq<seq<int>>)
}
