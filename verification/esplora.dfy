/** The Esplora-compatible handlers: each takes the node's lookup results and
    returns either a JSON view or a plain-text HTTP response. The node's
    per-transaction lookup, the block and transaction view mappers and the
    block-range query are parameters, since the handlers only pass values
    through them. */
module Esplora {
  import opened Lookups
  import opened Paging
  import opened Decimal
  import opened Node

  /** What a handler answers: a JSON value (status 200), or a plain-text body with a status. */
  datatype Response<+V> = Json(body: V) | Plain(status: nat, text: string)

  function StatusCode<V>(r: Response<V>): nat
  {
    match r
    case Json(_) => 200
    case Plain(status, _) => status
  }

  const OK: nat := 200
  const BAD_REQUEST: nat := 400
  const NOT_FOUND: nat := 404

  const BLOCK_NOT_FOUND: string := "Block not found"
  const TRANSACTION_NOT_FOUND: string := "Transaction not found"
  const INVALID_ADDRESS: string := "Invalid Bitcoin address"
  /** The wording, typo included, of the misaligned-offset message. */
  const ALIGNMENT_PREFIX: string := "start index must be a multipication of "

  /** The fixed wording followed by the page size in decimal. */
  function AlignmentMessage(txPage: Pos): (m: string)
    ensures |ALIGNMENT_PREFIX| < |m| && m[..|ALIGNMENT_PREFIX|] == ALIGNMENT_PREFIX
    ensures Canonical(m[|ALIGNMENT_PREFIX|..])
    ensures ParseDecimal(m[|ALIGNMENT_PREFIX|..]) == txPage
  {
    var digits := NatToString(txPage);
    ParseNatToString(txPage);
    assert (ALIGNMENT_PREFIX + digits)[|ALIGNMENT_PREFIX|..] == digits;
    ALIGNMENT_PREFIX + digits
  }

  /** `{in_best_chain, height, next_best}`; `None` renders as `null`. */
  datatype BlockStatusView = BlockStatusView(inBestChain: bool, height: Option<nat>, nextBest: Option<Hash>)

  /** The five counters of `chain_stats` / `mempool_stats`. */
  datatype TxoStats = TxoStats(
    fundedTxoCount: int, fundedTxoSum: int, spentTxoCount: int, spentTxoSum: int, txCount: nat)

  datatype AddressSummary = AddressSummary(address: string, chainStats: TxoStats, mempoolStats: TxoStats)

  /** Looks up each hash with the node (`info`, assumed to succeed) and maps the
      result to its view, keeping the order of `hashes`. */
  function ResolveAll<T, TV>(hashes: seq<Hash>, info: Hash -> T, toView: T -> TV): (r: seq<TV>)
    ensures |r| == |hashes|
    ensures forall i :: 0 <= i < |hashes| ==> r[i] == toView(info(hashes[i]))
  {
    MapAll(hashes, h => toView(info(h)))
  }

  /** GET /block/{hash}: the block's view, or 404 "Block not found". */
  function BlockByHash<BV>(data: Lookup<RawBlock>, toView: RawBlock -> BV): (r: Response<BV>)
    ensures r.Json? <==> data.Ok?
    ensures data.Ok? ==> r.body == toView(data.result)
    ensures data.Err? ==> r == Plain(NOT_FOUND, BLOCK_NOT_FOUND)
  {
    match data
    case Ok(block) => Json(toView(block))
    case Err(_) => Plain(NOT_FOUND, BLOCK_NOT_FOUND)
  }

  /** GET /block/{hash}/status: best effort, never an error response. */
  function BlockStatus(data: Lookup<RawBlock>): (r: Response<BlockStatusView>)
    ensures r.Json?
    ensures r.body.inBestChain <==> data.Ok?
    ensures data.Err? ==> r.body.height == None && r.body.nextBest == None
    ensures data.Ok? ==> r.body.height == Some(data.result.height)
    ensures data.Ok? ==> r.body.nextBest == data.result.nextblockhash
  {
    match data
    case Ok(block) => Json(BlockStatusView(true, Some(block.height), block.nextblockhash))
    case Err(_) => Json(BlockStatusView(false, None, None))
  }

  /** GET /block/{hash}/txs/{start}: the page of the block's transactions at
      `start`. The offset is checked before the lookup's outcome is. */
  function BlockTransactions<T, TV>(cfg: Config, data: Lookup<RawBlock>, start: nat,
                                    info: Hash -> T, toView: T -> TV): (r: Response<seq<TV>>)
    ensures start % cfg.txPage != 0 ==> r == Plain(BAD_REQUEST, AlignmentMessage(cfg.txPage))
    ensures start % cfg.txPage == 0 && data.Err? ==> r == Plain(NOT_FOUND, BLOCK_NOT_FOUND)
    ensures start % cfg.txPage == 0 && data.Ok? ==>
      var tx := data.result.tx;
      && r.Json?
      && |r.body| <= cfg.txPage
      && (r.body == [] <==> |tx| <= start)
      && (|r.body| == cfg.txPage || |tx| <= start + |r.body|)
      && forall i :: 0 <= i < |r.body| ==> start + i < |tx| && r.body[i] == toView(info(tx[start + i]))
  {
    if start % cfg.txPage != 0 then
      Plain(BAD_REQUEST, AlignmentMessage(cfg.txPage))
    else
      match data
      case Ok(block) => Json(ResolveAll(Page(block.tx, start, cfg.txPage), info, toView))
      case Err(_) => Plain(NOT_FOUND, BLOCK_NOT_FOUND)
  }

  /** GET /tx/{hash}: the transaction's view, or 404 "Transaction not found". */
  function TransactionInfo<T, TV>(data: Lookup<T>, toView: T -> TV): (r: Response<TV>)
    ensures r.Json? <==> data.Ok?
    ensures data.Ok? ==> r.body == toView(data.result)
    ensures data.Err? ==> r == Plain(NOT_FOUND, TRANSACTION_NOT_FOUND)
  {
    match data
    case Ok(tx) => Json(toView(tx))
    case Err(_) => Plain(NOT_FOUND, TRANSACTION_NOT_FOUND)
  }

  /** GET /address/{address}: the summary assembled from the history, the
      mempool snapshot and the balance. Only the history lookup is checked.
      The funded and spent output counts, and the mempool sums, are always 0. */
  function AddressInfo(address: string, history: Lookup<History>, mempool: MempoolInfo,
                       balance: BalanceInfo): (r: Response<AddressSummary>)
    ensures r.Json? <==> history.Ok?
    ensures history.Err? ==> r == Plain(BAD_REQUEST, INVALID_ADDRESS)
    ensures history.Ok? ==>
      var chain := r.body.chainStats;
      var pool := r.body.mempoolStats;
      && r.body.address == address
      && chain.fundedTxoSum == balance.received
      // what was received minus what was spent is what is left
      && chain.fundedTxoSum - chain.spentTxoSum == balance.balance
      && chain.txCount == history.result.txcount
      && pool.txCount == mempool.txcount
      && chain.fundedTxoCount == 0 && chain.spentTxoCount == 0
      && pool.fundedTxoCount == 0 && pool.spentTxoCount == 0
      && pool.fundedTxoSum == 0 && pool.spentTxoSum == 0
  {
    match history
    case Ok(h) =>
      Json(AddressSummary(
        address,
        TxoStats(0, balance.received, 0, balance.received - balance.balance, h.txcount),
        TxoStats(0, 0, 0, 0, mempool.txcount)))
    case Err(_) => Plain(BAD_REQUEST, INVALID_ADDRESS)
  }

  /** GET /address/{address}/txs: the first page of the address's transactions. */
  function AddressTransactions<T, TV>(cfg: Config, history: Lookup<History>,
                                      info: Hash -> T, toView: T -> TV): (r: Response<seq<TV>>)
    ensures r.Json? <==> history.Ok?
    ensures history.Err? ==> r == Plain(BAD_REQUEST, INVALID_ADDRESS)
    ensures history.Ok? ==>
      var tx := history.result.tx;
      && |r.body| == Min(cfg.txPage, |tx|)
      && forall i :: 0 <= i < |r.body| ==> r.body[i] == toView(info(tx[i]))
  {
    match history
    case Ok(h) => Json(ResolveAll(Page(h.tx, 0, cfg.txPage), info, toView))
    case Err(_) => Plain(BAD_REQUEST, INVALID_ADDRESS)
  }

  /** GET /address/{address}/txs/chain/{cursor}: the page that follows the
      first occurrence of `cursor` in the address's transactions, or the
      first page when `cursor` does not occur. */
  function AddressTransactionsAfter<T, TV>(cfg: Config, history: Lookup<History>, cursor: Hash,
                                           info: Hash -> T, toView: T -> TV): (r: Response<seq<TV>>)
    ensures r.Json? <==> history.Ok?
    ensures history.Err? ==> r == Plain(BAD_REQUEST, INVALID_ADDRESS)
    ensures history.Ok? && cursor in history.result.tx ==>
      var tx := history.result.tx;
      var k := IndexOf(tx, cursor);
      && |r.body| == Min(cfg.txPage, |tx| - (k + 1))
      && forall i :: 0 <= i < |r.body| ==> r.body[i] == toView(info(tx[k + 1 + i]))
    ensures history.Ok? && cursor !in history.result.tx ==>
      var tx := history.result.tx;
      && |r.body| == Min(cfg.txPage, |tx|)
      && forall i :: 0 <= i < |r.body| ==> r.body[i] == toView(info(tx[i]))
  {
    match history
    case Ok(h) => Json(ResolveAll(Page(h.tx, CursorStart(h.tx, cursor), cfg.txPage), info, toView))
    case Err(_) => Plain(BAD_REQUEST, INVALID_ADDRESS)
  }

  /** GET /blocks/{height}: the views of the block page the node returns for
      `height`, in the node's order. */
  function BlocksRange<BV>(cfg: Config, height: nat, range: (nat, Pos) -> seq<RawBlock>,
                           toView: RawBlock -> BV): (r: Response<seq<BV>>)
    ensures r.Json?
    ensures |r.body| == |range(height, cfg.blockPage)|
    ensures forall i :: 0 <= i < |r.body| ==> r.body[i] == toView(range(height, cfg.blockPage)[i])
  {
    Json(MapAll(range(height, cfg.blockPage), toView))
  }

  /** GET /blocks: the block page starting at the node's tip height. */
  function BlocksRangeAtTip<BV>(cfg: Config, chain: ChainInfo, range: (nat, Pos) -> seq<RawBlock>,
                                toView: RawBlock -> BV): (r: Response<seq<BV>>)
    ensures r.Json?
    ensures |r.body| == |range(chain.blocks, cfg.blockPage)|
    ensures forall i :: 0 <= i < |r.body| ==> r.body[i] == toView(range(chain.blocks, cfg.blockPage)[i])
  {
    BlocksRange(cfg, chain.blocks, range, toView)
  }

  /** GET /block-height/{height}: the block's hash as text, or 404 "Block not found". */
  function PlainBlockHash(data: Lookup<RawBlock>): (r: Response<()>)
    ensures r.Plain?
    ensures r.status == OK <==> data.Ok?
    ensures data.Ok? ==> r.text == data.result.hash
    ensures data.Err? ==> r == Plain(NOT_FOUND, BLOCK_NOT_FOUND)
  {
    match data
    case Ok(block) => Plain(OK, block.hash)
    case Err(_) => Plain(NOT_FOUND, BLOCK_NOT_FOUND)
  }

  /** GET /blocks/tip/height: the tip height as decimal text. */
  function PlainTipHeight(chain: ChainInfo): (r: Response<()>)
    ensures r.Plain? && r.status == OK
    // Python's `str`: canonical decimal digits, which read back as the height
    ensures Canonical(r.text) && ParseDecimal(r.text) == chain.blocks
  {
    ParseNatToString(chain.blocks);
    Plain(OK, NatToString(chain.blocks))
  }
}
