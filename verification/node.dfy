/** The node's query results as the handlers read them, and the configuration
    they consume. Only the fields the handlers themselves read are kept. The
    block view mapper is applied to this reduced record; any other node fields
    it reads are not part of this model. */
module Node {
  import opened Lookups
  import opened Paging

  type Hash = string

  /** A block lookup result: by hash, by height, or one element of a range. */
  datatype RawBlock = RawBlock(hash: Hash, height: nat, nextblockhash: Option<Hash>, tx: seq<Hash>)

  /** An address's confirmed history: its transaction count and transaction hashes. */
  datatype History = History(txcount: nat, tx: seq<Hash>)

  /** An address's mempool snapshot. */
  datatype MempoolInfo = MempoolInfo(txcount: nat)

  /** An address's balance: everything ever received, and what is left of it. */
  datatype BalanceInfo = BalanceInfo(received: int, balance: int)

  /** The node's chain summary; `blocks` is the tip height. */
  datatype ChainInfo = ChainInfo(blocks: nat)

  /** The configured page sizes for transaction lists and block ranges. */
  datatype Config = Config(txPage: Pos, blockPage: Pos)
}
