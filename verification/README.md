# Esplora response shaping, modelled in Dafny

This project models the Esplora-compatible handlers of the API server
(`server/esplora.py`): each handler takes the results of the node lookups it
makes and answers either with a JSON view or with a plain-text HTTP response.
The model is functional. Node lookups are tagged values, `Ok(result)` or
`Err(error)`, in place of the `{"error", "result"}` dictionaries. The configured
page sizes `tx_page` and `block_page` are positive fields of a `Config` value.
The collaborators the handlers only pass values through are function-valued
parameters:

- the per-transaction lookup `Transaction().info(h)["result"]` (`info`);
- the view mappers `Esplora().transaction` and `Esplora().block` (`toView`);
- the block-range query `Block().range(height, count)` (`range`).

Files:

- `lookups.dfy`: the lookup envelope (`Lookup`, `NodeError`) and `Option` for JSON `null`.
- `paging.dfy`: Python slicing, fixed-size pages and their partition of a list,
  element-wise mapping, `list.index` and the cursor start position.
- `decimal.dfy`: Python's `str(n)` for non-negative integers and a parser that reads it back.
- `node.dfy`: the node results the handlers read (block, history, mempool,
  balance, chain info) and the configuration.
- `esplora.dfy`: the eleven handlers and the `Response` type.
- `esplora_properties.dfy`: properties relating several calls: the partition
  of a block's transactions by offset pages, cursor pages following offset
  pages, agreement between endpoints.

Two facts about `server/esplora.py` shape the address handlers:

- An address whose history lookup fails is answered with 400 "Invalid Bitcoin
  address" (lines 108-109, and likewise lines 126-127 and 148-149).
- The mempool and balance lookups of the address summary read `["result"]`
  without checking for an error (lines 85-86), so they are total inputs here.

The cursor walk of the address endpoints (first page, then each later page
asked for with the last hash of the previous page as cursor) is proved to
serve the offset pages under the assumption that the node's address history
lists no transaction hash twice. `server/esplora.py` does not check this:
`list.index` (line 140) resumes after the first occurrence of the cursor, and
a repeated hash can make the walk stall, which is proved on an example.

## Model

| member | source | states |
|---|---|---|
| Esplora.BlockByHash | server/esplora.py:15-23 | JSON exactly when the lookup succeeded, and then the mapped block; otherwise 404 "Block not found" |
| Esplora.BlockStatus | server/esplora.py:27-43 | always JSON (never an error); `in_best_chain` holds exactly when the lookup succeeded; on success `height` and `next_best` are copied from the block, on failure both are null |
| Esplora.BlockTransactions | server/esplora.py:47-64 | a start that is not a multiple of `tx_page` gives 400 with the alignment message, whatever the lookup returned; aligned and missing gives 404 "Block not found"; aligned and found gives at most `tx_page` views of `tx[start + i]` in order, empty exactly when start is at or past the end, short only when it reaches the end |
| Esplora.TransactionInfo | server/esplora.py:68-76 | JSON exactly when the lookup succeeded, and then the mapped transaction; otherwise 404 "Transaction not found" |
| Esplora.AddressInfo | server/esplora.py:80-109 | failed history gives 400 "Invalid Bitcoin address" and no partial summary; otherwise the address is echoed, funded sum = received, funded minus spent sum = balance, chain tx count = history txcount, mempool tx count = mempool txcount, every output count and every mempool sum is 0 |
| Esplora.AddressTransactions | server/esplora.py:113-127 | failed history gives 400 "Invalid Bitcoin address"; otherwise the views of the first min(`tx_page`, n) transactions, in order |
| Esplora.AddressTransactionsAfter | server/esplora.py:131-149 | failed history gives 400; a cursor present at first index k gives the views of `tx[k + 1 + i]`, min(`tx_page`, n - k - 1) of them; an absent cursor gives the first min(`tx_page`, n) |
| Esplora.BlocksRange | server/esplora.py:167-176 | always JSON; same length and order as the node's range at `height` with `block_page` blocks, each block mapped |
| Esplora.BlocksRangeAtTip | server/esplora.py:153-163 | the same, with the range starting at the chain info's `blocks` |
| Esplora.PlainBlockHash | server/esplora.py:180-187 | always plain text; status 200 exactly when the lookup succeeded, with the block's hash as body; otherwise 404 "Block not found" |
| Esplora.PlainTipHeight | server/esplora.py:191-193 | plain text, status 200, the canonical decimal text of the tip height (non-empty, digits only, no leading zero except for 0) that reads back as the height |
| Esplora.AlignmentMessage | server/esplora.py:52 | the 400 message is the fixed prefix followed by the canonical decimal text of `tx_page`, which reads back as `tx_page` |
| Esplora.ResolveAll | server/esplora.py:57-59 | the per-hash lookup-and-map loop: one view per hash, view i is the mapped lookup of hash i |
| Paging.Slice | server/esplora.py:57 | Python slicing: element i is `xs[lo + i]`; the length is clamped to the list; an empty or out-of-range window is empty |
| Paging.Page | server/esplora.py:142 | `xs[start:start + size]`: at most `size` elements, each `xs[start + i]`; empty exactly when start is at or past the end; short only at the end |
| Paging.MapAll | server/esplora.py:120-122 | the append loop: same length as the input, element i is `f(xs[i])` |
| Paging.IndexOf | server/esplora.py:140 | `list.index`: a position holding the value, with no earlier position holding it |
| Paging.CursorStart | server/esplora.py:134-140 | positive exactly when the cursor occurs, and then one past its first occurrence; 0 otherwise |
| Paging.PagesArePrefix | server/esplora.py:57 | the first k pages laid end to end are the prefix of length min(k * size, n) |
| Paging.PagesCoverAll | server/esplora.py:57 | pages at offsets 0, size, 2 * size, ... up to the page count concatenate to the whole list |
| Paging.PagesPastEndAreEmpty | server/esplora.py:57 | every page from the page count on is empty |
| Paging.LastPageHoldsRemainder | server/esplora.py:57 | the last non-empty page holds n mod size elements, or a full page when size divides n |
| Paging.CursorStartDistinct | server/esplora.py:139-140 | in a list without repetitions, the cursor at position k resumes at k + 1 |
| Decimal.NatToString | server/esplora.py:193 | `str(n)`: non-empty, digits only, a leading zero only for 0 itself |
| Decimal.ParseNatToString | server/esplora.py:193 | reading back the decimal text of n gives n |
| Decimal.NatToStringParse | server/esplora.py:193 | every canonical decimal text is the `str` of the number it reads as, so canonical texts and heights correspond one to one |
| Decimal.NatToStringInjective | server/esplora.py:52 | different page sizes give different texts |
| EsploraProperties.AlignmentCheckedFirst | server/esplora.py:48-52 | a misaligned start gives the same 400 response whether the block exists or not |
| EsploraProperties.BlockPagesPartition | server/esplora.py:51-61 | the bodies at offsets 0, P, 2P, ... up to the page count concatenate to the views of all the block's transactions, in order |
| EsploraProperties.BlockPagesArePages | server/esplora.py:51-61 | the bodies at the first k aligned offsets are the views of the first k pages |
| EsploraProperties.BlockPagesPastEnd | server/esplora.py:51-61 | an aligned offset at or past the page count gives an empty list, not an error |
| EsploraProperties.BlockLastPage | server/esplora.py:57-61 | the last non-empty page of a block holds the remainder |
| EsploraProperties.BlockEndpointsAgree | server/esplora.py:15-64 | block, status and block-transactions endpoints agree on whether the block exists |
| EsploraProperties.CursorAbsentIsFirstPage | server/esplora.py:120-146 | a cursor not in the history gives exactly the first-page response |
| EsploraProperties.CursorExample | server/esplora.py:134-146 | for [a, b, c, d] and cursor b the page is [c, d] when `tx_page` is at least 2 |
| EsploraProperties.CursorContinuesPage | server/esplora.py:134-146 | with distinct hashes, the last hash of the page at s as cursor gives the page at s + `tx_page` |
| EsploraProperties.WalkStartIsOffset | server/esplora.py:120-142 | with distinct hashes, the j-th request of the cursor walk starts at j pages in, clamped to the end of the history |
| EsploraProperties.CursorWalkIsPages | server/esplora.py:113-146 | with distinct hashes, the first k responses of the cursor walk, laid end to end, are the views of the first k offset pages |
| EsploraProperties.CursorWalkCoversAll | server/esplora.py:113-146 | with distinct hashes, walking by cursor for as many requests as there are pages serves the view of every transaction of the history once, in history order |
| EsploraProperties.WalkStaysFrom | server/esplora.py:139-142 | once a page of the walk ends in a hash whose first occurrence resumes at that page's own start, every later request starts there again |
| EsploraProperties.RepeatedHashStarts | server/esplora.py:139-142 | for [a, b, c, b, d] with pages of two, every request after the first starts at offset 2 |
| EsploraProperties.RepeatedHashStallsWalk | server/esplora.py:131-146 | for [a, b, c, b, d] with pages of two, every request after the first serves the views of [c, b] and covers positions up to 4 only, so d is never served |
| EsploraProperties.PagesServeTransactionViews | server/esplora.py:57-59 | each element of an aligned block page, of the first address page and of a cursor page is exactly what the transaction endpoint (lines 68-76) serves for that hash's lookup |
| EsploraProperties.PlainBlockHashAgreesWithBlock | server/esplora.py:180-187 | given the same block lookup, the plain hash endpoint answers 404 exactly when the block endpoint (lines 15-23) does, with the same status, and otherwise serves the hash of the block the block endpoint maps |
| EsploraProperties.TipHeightIsDecimalText | server/esplora.py:193 | the tip-height text is exactly `str` of the height |
| EsploraProperties.SpentWithinFunded | server/esplora.py:94-96 | when 0 <= balance <= received, 0 <= spent sum <= funded sum |
| EsploraProperties.TipHeightStartsRange | server/esplora.py:154-158 | the tip height served as text is the height the tip block range starts at |

## Left out

- HTTP transport: the Flask blueprint, resources, `Response` objects, MIME types and route registration (`init`) are not modelled; a response is JSON (status 200) or a status with a plain-text body.
- The `@stats.rest` decorator: telemetry with no effect on responses.
- Node queries (`Transaction`, `Address`, `General`, `Block` in `server/methods/`): foreign RPC calls, given to the handlers as lookup results or as function parameters.
- `Esplora().block` and `Esplora().transaction`: their field mapping is not part of this model; they are uninterpreted parameters.
- Failures of secondary lookups: the per-transaction lookups in the paging loops and the mempool and balance lookups read `["result"]` unchecked, so they are modelled as always succeeding.
- The `General().info()` call in the `/blocks/{height}` handler: its result is never used.
- Negative `start` and `height`: the route converters admit only non-negative integers, so both are natural numbers.
- EsploraProperties.CursorContinuesPage: holds only for a history without repeated transaction hashes; the node's `Address().history` is not part of this model and the handlers do not enforce it, and with a repeated hash the walk can stall (`RepeatedHashStallsWalk`).
- EsploraProperties.WalkStartIsOffset: holds only for a history without repeated transaction hashes; the node's `Address().history` is not part of this model and the handlers do not enforce it, and with a repeated hash the walk can stall (`RepeatedHashStallsWalk`).
- EsploraProperties.CursorWalkIsPages: holds only for a history without repeated transaction hashes; the node's `Address().history` is not part of this model and the handlers do not enforce it, and with a repeated hash the walk can stall (`RepeatedHashStallsWalk`).
- EsploraProperties.CursorWalkCoversAll: holds only for a history without repeated transaction hashes; the node's `Address().history` is not part of this model and the handlers do not enforce it, and with a repeated hash the walk can stall (`RepeatedHashStallsWalk`).
- Esplora.PlainTipHeight: the chain-info lookup's `["result"]["blocks"]` is read without an error check (line 193); a failed lookup raises in the source and is answered with 500, whereas the model takes the chain info as a total value.
- Esplora.BlocksRangeAtTip: the same unchecked read of `["result"]["blocks"]` (line 155); a failed chain-info lookup raises (500) in the source, whereas the model takes the chain info as a total value.
- Amounts: `received` and `balance` are integers; a floating-point amount from the node is not modelled.
- Esplora.BlockStatus: `nextblockhash` is taken to be optional in the node's block result; whether the node omits it at the tip (which would raise a `KeyError` in the handler) is not visible, so that failure is not modelled.
