/** Properties that relate several handler calls: offset pages partition a
    block's transactions, cursor pages follow offset pages, endpoints agree
    with each other on the same lookup. */
module EsploraProperties {
  import opened Lookups
  import opened Paging
  import opened Decimal
  import opened Node
  import opened Esplora

  /** A misaligned offset is answered with 400 before the lookup is looked at:
      the response is the same whether or not the block exists. */
  lemma AlignmentCheckedFirst<T, TV>(cfg: Config, found: RawBlock, missing: NodeError, start: nat,
                                     info: Hash -> T, toView: T -> TV)
    requires start % cfg.txPage != 0
    ensures BlockTransactions(cfg, Ok(found), start, info, toView)
         == BlockTransactions(cfg, Err(missing), start, info, toView)
    ensures StatusCode(BlockTransactions(cfg, Ok(found), start, info, toView)) == BAD_REQUEST
  {
  }

  lemma MultipleIsAligned(k: nat, size: Pos)
    ensures (k * size) % size == 0
  {
    ModUnique(k * size, k, 0, size);
  }

  /** The list a response serves: its JSON body, or nothing for a plain-text error. */
  function Body<V>(r: Response<seq<V>>): seq<V>
  {
    if r.Json? then r.body else []
  }

  /** The bodies of the block-transactions responses at offsets 0, P, ...,
      (k - 1) * P (P the transaction page size). */
  function BlockBodies<T, TV>(cfg: Config, block: RawBlock, k: nat,
                              info: Hash -> T, toView: T -> TV): (r: seq<seq<TV>>)
    ensures |r| == k
    ensures forall i :: 0 <= i < k ==>
              r[i] == Body(BlockTransactions(cfg, Ok(block), i * cfg.txPage, info, toView))
  {
    seq(k, i requires 0 <= i => Body(BlockTransactions(cfg, Ok(block), i * cfg.txPage, info, toView)))
  }

  /** Those bodies laid end to end. */
  function BlockPages<T, TV>(cfg: Config, block: RawBlock, k: nat,
                             info: Hash -> T, toView: T -> TV): seq<TV>
  {
    Flatten(BlockBodies(cfg, block, k, info, toView))
  }

  /** Where the first `k + 1` aligned pages of a list of length `n` start. */
  function PageStarts(n: nat, size: Pos, k: nat): (r: seq<nat>)
    ensures |r| == k + 1
    ensures forall i :: 0 <= i <= k ==> r[i] == Min(i * size, n)
  {
    seq(k + 1, i requires 0 <= i => Min(i * size, n))
  }

  /** The response at the `i`-th aligned offset serves the `i`-th page. */
  lemma AlignedBlockPage<T, TV>(cfg: Config, block: RawBlock, i: nat, info: Hash -> T, toView: T -> TV)
    ensures Body(BlockTransactions(cfg, Ok(block), i * cfg.txPage, info, toView))
         == ResolveAll(Page(block.tx, i * cfg.txPage, cfg.txPage), info, toView)
  {
    MultipleIsAligned(i, cfg.txPage);
  }

  /** The response at the `i`-th aligned offset is the run of all the
      transaction views between the `i`-th and `i + 1`-th page starts. */
  lemma BlockBodyIsRun<T, TV>(cfg: Config, block: RawBlock, i: nat, info: Hash -> T, toView: T -> TV)
    ensures var n := |block.tx|;
            Min(i * cfg.txPage, n) <= Min((i + 1) * cfg.txPage, n) <= n
            && Body(BlockTransactions(cfg, Ok(block), i * cfg.txPage, info, toView))
               == ResolveAll(block.tx, info, toView)[Min(i * cfg.txPage, n)..Min((i + 1) * cfg.txPage, n)]
  {
    var n, size := |block.tx|, cfg.txPage;
    var start, next := i * size, (i + 1) * size;
    NextOffset(i + 1, size);
    assert next == start + size;
    AlignedBlockPage(cfg, block, i, info, toView);
    PageLength(block.tx, start, size);
    PageIsRun(block.tx, start, size);
    var lo, hi := Min(start, n), Min(next, n);
    if start < n {
      assert Page(block.tx, start, size) == block.tx[lo..hi];
      ResolveAllSlice(block.tx, lo, hi, info, toView);
    }
  }

  /** The bodies at the first `k` aligned offsets, laid end to end, are the
      views of the first `k` pages. */
  lemma BlockPagesArePages<T, TV>(cfg: Config, block: RawBlock, k: nat,
                                  info: Hash -> T, toView: T -> TV)
    ensures BlockPages(cfg, block, k, info, toView)
         == ResolveAll(Pages(block.tx, cfg.txPage, k), info, toView)
  {
    var n := |block.tx|;
    var parts := BlockBodies(cfg, block, k, info, toView);
    var pos := PageStarts(n, cfg.txPage, k);
    var xs := ResolveAll(block.tx, info, toView);
    forall i: nat | i < k
      ensures IsRun(parts, pos, xs, i)
    {
      BlockBodyIsRun(cfg, block, i, info, toView);
    }
    FlattenRuns(parts, pos, xs);
    var m := Min(k * cfg.txPage, n);
    PagesArePrefix(block.tx, cfg.txPage, k);
    ResolveAllSlice(block.tx, 0, m, info, toView);
    assert block.tx[0..m] == block.tx[..m];
  }

  /** Paging a block by offset loses and repeats nothing: the pages at offsets
      0, P, 2P, ... up to the page count give back every transaction view, in
      block order. */
  lemma BlockPagesPartition<T, TV>(cfg: Config, block: RawBlock, info: Hash -> T, toView: T -> TV)
    ensures BlockPages(cfg, block, PageCount(|block.tx|, cfg.txPage), info, toView)
         == ResolveAll(block.tx, info, toView)
  {
    BlockPagesArePages(cfg, block, PageCount(|block.tx|, cfg.txPage), info, toView);
    PagesCoverAll(block.tx, cfg.txPage);
  }

  /** Every aligned offset from the page count on gives an empty page, not an error. */
  lemma BlockPagesPastEnd<T, TV>(cfg: Config, block: RawBlock, k: nat, info: Hash -> T, toView: T -> TV)
    requires PageCount(|block.tx|, cfg.txPage) <= k
    ensures BlockTransactions(cfg, Ok(block), k * cfg.txPage, info, toView) == Json([])
  {
    MultipleIsAligned(k, cfg.txPage);
    PagesPastEndAreEmpty(block.tx, cfg.txPage, k);
  }

  /** The last non-empty page of a block holds the remainder of the list. */
  lemma BlockLastPage<T, TV>(cfg: Config, block: RawBlock, info: Hash -> T, toView: T -> TV)
    requires 0 < |block.tx|
    ensures 0 < PageCount(|block.tx|, cfg.txPage)
    ensures var r := BlockTransactions(cfg, Ok(block), (PageCount(|block.tx|, cfg.txPage) - 1) * cfg.txPage,
                                       info, toView);
            && r.Json?
            && |r.body| == if |block.tx| % cfg.txPage == 0 then cfg.txPage else |block.tx| % cfg.txPage
  {
    LastPageHoldsRemainder(block.tx, cfg.txPage);
    MultipleIsAligned(PageCount(|block.tx|, cfg.txPage) - 1, cfg.txPage);
  }

  /** Block, status and transactions endpoints agree on whether a block exists. */
  lemma BlockEndpointsAgree<BV, T, TV>(cfg: Config, data: Lookup<RawBlock>, toBlockView: RawBlock -> BV,
                                       info: Hash -> T, toView: T -> TV)
    ensures BlockByHash(data, toBlockView).Json? <==> BlockStatus(data).body.inBestChain
    ensures BlockByHash(data, toBlockView) == Plain(NOT_FOUND, BLOCK_NOT_FOUND)
        <==> BlockTransactions(cfg, data, 0, info, toView) == Plain(NOT_FOUND, BLOCK_NOT_FOUND)
  {
  }

  /** A cursor that is not among the address's transactions gives the first page. */
  lemma CursorAbsentIsFirstPage<T, TV>(cfg: Config, history: Lookup<History>, cursor: Hash,
                                       info: Hash -> T, toView: T -> TV)
    requires history.Ok? ==> cursor !in history.result.tx
    ensures AddressTransactionsAfter(cfg, history, cursor, info, toView)
         == AddressTransactions(cfg, history, info, toView)
  {
  }

  /** For the transactions [a, b, c, d] and the cursor b, the page starts at c. */
  lemma CursorExample<T, TV>(cfg: Config, txcount: nat, info: Hash -> T, toView: T -> TV)
    requires 2 <= cfg.txPage
    ensures AddressTransactionsAfter(cfg, Ok(History(txcount, ["a", "b", "c", "d"])), "b", info, toView)
         == Json([toView(info("c")), toView(info("d"))])
  {
    var tx: seq<Hash> := ["a", "b", "c", "d"];
    assert IndexOf(tx, "b") == 1 by {
      assert tx[0] != "b" && tx[2] != "b" && tx[3] != "b";
    }
    assert CursorStart(tx, "b") == 2;
    var p := Page(tx, 2, cfg.txPage);
    assert |p| == 2;
    assert p == ["c", "d"];
    var r := ResolveAll(p, info, toView);
    assert r == [toView(info("c")), toView(info("d"))];
  }

  /** In a list without repeated hashes, taking the last hash of a page as the
      cursor yields the page one full step further on. */
  lemma CursorContinuesPage<T, TV>(cfg: Config, h: History, s: nat, info: Hash -> T, toView: T -> TV)
    requires Distinct(h.tx)
    requires s < |h.tx|
    ensures var p := Page(h.tx, s, cfg.txPage);
            AddressTransactionsAfter(cfg, Ok(h), p[|p| - 1], info, toView)
            == Json(ResolveAll(Page(h.tx, s + cfg.txPage, cfg.txPage), info, toView))
  {
    var p := Page(h.tx, s, cfg.txPage);
    CursorStartDistinct(h.tx, s + |p| - 1);
    NextPageAfterPage(h.tx, s, cfg.txPage);
  }

  /** A page that is short runs to the end of the list, so whatever follows it
      is the same empty page as the one a full step further on. */
  lemma NextPageAfterPage<X>(xs: seq<X>, s: nat, size: Pos)
    ensures Page(xs, s + |Page(xs, s, size)|, size) == Page(xs, s + size, size)
  {
  }

  /** Where the `j`-th page of a cursor walk starts: a client asks for the
      first page, then for the page after the last hash of each page it got.
      A client that got an empty page has no cursor left and stays put. */
  function WalkStart(tx: seq<Hash>, size: Pos, j: nat): (s: nat)
    ensures s <= |tx|
  {
    if j == 0 then 0
    else
      var s := WalkStart(tx, size, j - 1);
      var prev := Page(tx, s, size);
      if prev == [] then s else CursorStart(tx, prev[|prev| - 1])
  }

  /** The body of the `j`-th response of the cursor walk: the first-page
      endpoint, then the after-cursor endpoint with the last hash of the
      previous page as cursor. */
  function WalkBody<T, TV>(cfg: Config, h: History, j: nat, info: Hash -> T, toView: T -> TV): seq<TV>
  {
    if j == 0 then Body(AddressTransactions(cfg, Ok(h), info, toView))
    else
      var prev := Page(h.tx, WalkStart(h.tx, cfg.txPage, j - 1), cfg.txPage);
      if prev == [] then []
      else Body(AddressTransactionsAfter(cfg, Ok(h), prev[|prev| - 1], info, toView))
  }

  /** The bodies of the first `k` responses of the cursor walk. */
  function WalkBodies<T, TV>(cfg: Config, h: History, k: nat, info: Hash -> T, toView: T -> TV): (r: seq<seq<TV>>)
    ensures |r| == k
    ensures forall j :: 0 <= j < k ==> r[j] == WalkBody(cfg, h, j, info, toView)
  {
    seq(k, j requires 0 <= j => WalkBody(cfg, h, j, info, toView))
  }

  /** The bodies of the first `k` responses of the cursor walk, laid end to end. */
  function CursorWalk<T, TV>(cfg: Config, h: History, k: nat, info: Hash -> T, toView: T -> TV): seq<TV>
  {
    Flatten(WalkBodies(cfg, h, k, info, toView))
  }

  /** The positions of the first `k + 1` pages of the cursor walk. */
  function WalkStarts(tx: seq<Hash>, size: Pos, k: nat): (r: seq<nat>)
    ensures |r| == k + 1
    ensures forall j :: 0 <= j <= k ==> r[j] == WalkStart(tx, size, j)
  {
    seq(k + 1, j requires 0 <= j => WalkStart(tx, size, j))
  }

  /** With distinct hashes, the walk moves on by exactly the page it just got. */
  lemma WalkStep(tx: seq<Hash>, size: Pos, j: nat)
    requires Distinct(tx)
    ensures WalkStart(tx, size, j + 1)
         == WalkStart(tx, size, j) + |Page(tx, WalkStart(tx, size, j), size)|
  {
    var s := WalkStart(tx, size, j);
    var prev := Page(tx, s, size);
    if prev != [] {
      CursorStartDistinct(tx, s + |prev| - 1);
    }
  }

  lemma NextOffset(j: nat, size: Pos)
    requires 0 < j
    ensures (j - 1) * size + size == j * size
  {
  }

  /** The offset of the `j`-th page, counted up one page at a time. */
  function Offset(j: nat, size: Pos): nat
  {
    if j == 0 then 0 else Offset(j - 1, size) + size
  }

  /** Counting up page by page reaches `j * size`. */
  lemma {:induction false} OffsetIsProduct(j: nat, size: Pos)
    ensures Offset(j, size) == j * size
  {
    if j > 0 {
      OffsetIsProduct(j - 1, size);
      NextOffset(j, size);
    }
  }

  /** With distinct hashes, the `j`-th page of the walk starts at the `j`-th
      page offset, or at the end of the list once the walk has reached it. */
  lemma {:induction false} WalkStartIsOffset(tx: seq<Hash>, size: Pos, j: nat)
    requires Distinct(tx)
    ensures WalkStart(tx, size, j) == Min(Offset(j, size), |tx|)
  {
    if j > 0 {
      var i: nat := j - 1;
      var a, b := Offset(i, size), Offset(j, size);
      assert b == a + size;
      WalkStartIsOffset(tx, size, i);
      WalkFromMin(tx, size, i, a, b);
    }
  }

  /** One step of the walk moves a clamped offset on by one page. */
  lemma WalkFromMin(tx: seq<Hash>, size: Pos, j: nat, a: nat, b: nat)
    requires Distinct(tx)
    requires WalkStart(tx, size, j) == Min(a, |tx|) && b == a + size
    ensures WalkStart(tx, size, j + 1) == Min(b, |tx|)
  {
    var s := WalkStart(tx, size, j);
    WalkStep(tx, size, j);
    PageLength(tx, s, size);
  }

  /** Each response of the walk serves the views of the page at its start. */
  lemma WalkBodyServesPage<T, TV>(cfg: Config, h: History, j: nat, info: Hash -> T, toView: T -> TV)
    ensures WalkBody(cfg, h, j, info, toView)
         == ResolveAll(Page(h.tx, WalkStart(h.tx, cfg.txPage, j), cfg.txPage), info, toView)
  {
    var size := cfg.txPage;
    if j == 0 {
      assert AddressTransactions(cfg, Ok(h), info, toView) == Json(ResolveAll(Page(h.tx, 0, size), info, toView));
    } else {
      var s := WalkStart(h.tx, size, j - 1);
      var prev := Page(h.tx, s, size);
      if prev == [] {
        assert Page(h.tx, WalkStart(h.tx, size, j), size) == [];
      } else {
        var c := prev[|prev| - 1];
        assert WalkStart(h.tx, size, j) == CursorStart(h.tx, c);
        assert AddressTransactionsAfter(cfg, Ok(h), c, info, toView)
            == Json(ResolveAll(Page(h.tx, CursorStart(h.tx, c), size), info, toView));
      }
    }
  }

  /** The `j`-th response of the walk is the run of all the transaction views
      between the walk's `j`-th and `j + 1`-th positions. */
  lemma WalkBodyIsRun<T, TV>(cfg: Config, h: History, j: nat, info: Hash -> T, toView: T -> TV)
    requires Distinct(h.tx)
    ensures WalkStart(h.tx, cfg.txPage, j) <= WalkStart(h.tx, cfg.txPage, j + 1) <= |h.tx|
    ensures WalkBody(cfg, h, j, info, toView)
         == ResolveAll(h.tx, info, toView)[WalkStart(h.tx, cfg.txPage, j)..WalkStart(h.tx, cfg.txPage, j + 1)]
  {
    var s, t := WalkStart(h.tx, cfg.txPage, j), WalkStart(h.tx, cfg.txPage, j + 1);
    WalkBodyServesPage(cfg, h, j, info, toView);
    WalkStep(h.tx, cfg.txPage, j);
    PageRun(h.tx, s, t, cfg.txPage, info, toView);
  }

  /** The views of a page are the run of all the views that the page covers. */
  lemma PageRun<T, TV>(tx: seq<Hash>, s: nat, t: nat, size: Pos, info: Hash -> T, toView: T -> TV)
    requires s <= |tx| && t == s + |Page(tx, s, size)|
    ensures s <= t <= |tx|
    ensures ResolveAll(Page(tx, s, size), info, toView) == ResolveAll(tx, info, toView)[s..t]
  {
    PageIsRun(tx, s, size);
    ResolveAllSlice(tx, s, t, info, toView);
  }

  /** Resolving a run of hashes gives the same run of the resolved list. */
  lemma ResolveAllSlice<T, TV>(tx: seq<Hash>, lo: nat, hi: nat, info: Hash -> T, toView: T -> TV)
    requires lo <= hi <= |tx|
    ensures ResolveAll(tx[lo..hi], info, toView) == ResolveAll(tx, info, toView)[lo..hi]
  {
  }

  /** With distinct hashes, the first `k` responses of the cursor walk are the
      views of the transactions before the walk's current position, in order. */
  lemma CursorWalkIsPrefix<T, TV>(cfg: Config, h: History, k: nat, info: Hash -> T, toView: T -> TV)
    requires Distinct(h.tx)
    ensures CursorWalk(cfg, h, k, info, toView)
         == ResolveAll(h.tx, info, toView)[..WalkStart(h.tx, cfg.txPage, k)]
  {
    var parts := WalkBodies(cfg, h, k, info, toView);
    var pos := WalkStarts(h.tx, cfg.txPage, k);
    var xs := ResolveAll(h.tx, info, toView);
    forall j: nat | j < k
      ensures IsRun(parts, pos, xs, j)
    {
      WalkBodyIsRun(cfg, h, j, info, toView);
    }
    FlattenRuns(parts, pos, xs);
  }

  /** With distinct hashes, the first `k` responses of the cursor walk are the
      views of the first `k` offset pages: cursor paging and offset paging
      serve the same pages. */
  lemma CursorWalkIsPages<T, TV>(cfg: Config, h: History, k: nat, info: Hash -> T, toView: T -> TV)
    requires Distinct(h.tx)
    ensures CursorWalk(cfg, h, k, info, toView) == ResolveAll(Pages(h.tx, cfg.txPage, k), info, toView)
  {
    CursorWalkIsPrefix(cfg, h, k, info, toView);
    WalkStartIsOffset(h.tx, cfg.txPage, k);
    OffsetIsProduct(k, cfg.txPage);
    PagesArePrefix(h.tx, cfg.txPage, k);
    ResolveAllSlice(h.tx, 0, WalkStart(h.tx, cfg.txPage, k), info, toView);
    assert h.tx[0..WalkStart(h.tx, cfg.txPage, k)] == h.tx[..WalkStart(h.tx, cfg.txPage, k)];
  }

  /** Paging an address by cursor, as many times as there are pages, serves
      every transaction view once, in history order. */
  lemma CursorWalkCoversAll<T, TV>(cfg: Config, h: History, info: Hash -> T, toView: T -> TV)
    requires Distinct(h.tx)
    ensures CursorWalk(cfg, h, PageCount(|h.tx|, cfg.txPage), info, toView) == ResolveAll(h.tx, info, toView)
  {
    var n := PageCount(|h.tx|, cfg.txPage);
    CursorWalkIsPrefix(cfg, h, n, info, toView);
    WalkStartIsOffset(h.tx, cfg.txPage, n);
    OffsetIsProduct(n, cfg.txPage);
    PageCountBounds(|h.tx|, cfg.txPage);
  }

  /** In [a, b, c, b, d] the cursor b resumes after its first occurrence. */
  lemma RepeatedCursor()
    ensures CursorStart(["a", "b", "c", "b", "d"], "b") == 2
  {
    var tx := ["a", "b", "c", "b", "d"];
    assert tx[0] != "b" && tx[1] == "b";
    assert IndexOf(tx, "b") == 1;
  }

  /** The page at `s` ends in a hash whose cursor resumes at `s` again. */
  predicate Stuck(tx: seq<Hash>, size: Pos, s: nat)
  {
    var p := Page(tx, s, size);
    p != [] && CursorStart(tx, p[|p| - 1]) == s
  }

  /** A walk that reaches a stuck position does not move on. */
  lemma WalkStays(tx: seq<Hash>, size: Pos, j: nat, s: nat)
    requires WalkStart(tx, size, j) == s && Stuck(tx, size, s)
    ensures WalkStart(tx, size, j + 1) == s
  {
  }

  /** Once the walk reaches a stuck position, it stays there for good. */
  lemma {:induction false} WalkStaysFrom(tx: seq<Hash>, size: Pos, i: nat, j: nat, s: nat)
    requires i <= j && WalkStart(tx, size, i) == s && Stuck(tx, size, s)
    ensures WalkStart(tx, size, j) == s
    decreases j - i
  {
    if i < j {
      WalkStays(tx, size, i, s);
      WalkStaysFrom(tx, size, i + 1, j, s);
    }
  }

  /** With pages of two, the first page of [a, b, c, b, d] ends in b, so the
      second request starts at 2; the page there ends in b again. */
  lemma RepeatedFirstStep()
    ensures WalkStart(["a", "b", "c", "b", "d"], 2, 1) == 2
    ensures Stuck(["a", "b", "c", "b", "d"], 2, 2)
  {
    var tx := ["a", "b", "c", "b", "d"];
    RepeatedCursor();
    assert Page(tx, 0, 2) == ["a", "b"];
    assert Page(tx, 2, 2) == ["c", "b"];
  }

  /** With pages of two, every request after the first of the walk over
      [a, b, c, b, d] starts at offset 2. */
  lemma RepeatedHashStarts(j: nat)
    requires 1 <= j
    ensures WalkStart(["a", "b", "c", "b", "d"], 2, j) == 2
  {
    RepeatedFirstStep();
    WalkStaysFrom(["a", "b", "c", "b", "d"], 2, 1, j, 2);
  }

  /** A repeated hash stalls the walk. In [a, b, c, b, d] with pages of two,
      the cursor b that ends the second page resumes after its first
      occurrence, so every request after the first serves the views of
      [c, b] again and the walk never reaches d. */
  lemma RepeatedHashStallsWalk<T, TV>(cfg: Config, j: nat, info: Hash -> T, toView: T -> TV)
    requires cfg.txPage == 2 && 1 <= j
    ensures var tx := ["a", "b", "c", "b", "d"];
            var s := WalkStart(tx, 2, j);
            s + |Page(tx, s, 2)| == 4 < |tx|
    ensures WalkBody(cfg, History(5, ["a", "b", "c", "b", "d"]), j, info, toView)
         == ResolveAll(["c", "b"], info, toView)
  {
    var tx := ["a", "b", "c", "b", "d"];
    RepeatedHashStarts(j);
    assert Page(tx, 2, 2) == ["c", "b"];
    WalkBodyServesPage(cfg, History(5, tx), j, info, toView);
  }

  /** Every element of a transaction page is what the transaction endpoint
      serves for that transaction's lookup. */
  lemma PagesServeTransactionViews<T, TV>(cfg: Config, block: RawBlock, h: History, start: nat, cursor: Hash,
                                          info: Hash -> T, toView: T -> TV)
    requires start % cfg.txPage == 0
    ensures var r := BlockTransactions(cfg, Ok(block), start, info, toView);
            forall i :: 0 <= i < |r.body| ==>
              r.body[i] == TransactionInfo(Ok(info(block.tx[start + i])), toView).body
    ensures var r := AddressTransactions(cfg, Ok(h), info, toView);
            forall i :: 0 <= i < |r.body| ==> r.body[i] == TransactionInfo(Ok(info(h.tx[i])), toView).body
    ensures var r := AddressTransactionsAfter(cfg, Ok(h), cursor, info, toView);
            var s := CursorStart(h.tx, cursor);
            forall i :: 0 <= i < |r.body| ==>
              s + i < |h.tx| && r.body[i] == TransactionInfo(Ok(info(h.tx[s + i])), toView).body
  {
  }

  /** The hash-by-height endpoint fails exactly when the block endpoint does on
      the same lookup, and otherwise serves the hash of the block that one maps. */
  lemma PlainBlockHashAgreesWithBlock<BV>(data: Lookup<RawBlock>, toView: RawBlock -> BV)
    ensures PlainBlockHash(data) == Plain(NOT_FOUND, BLOCK_NOT_FOUND)
        <==> BlockByHash(data, toView) == Plain(NOT_FOUND, BLOCK_NOT_FOUND)
    ensures StatusCode(PlainBlockHash(data)) == StatusCode(BlockByHash(data, toView))
    ensures BlockByHash(data, toView).Json? ==>
              BlockByHash(data, toView).body == toView(data.result) && PlainBlockHash(data).text == data.result.hash
  {
  }

  /** The tip-height text is exactly Python's `str` of the height. */
  lemma TipHeightIsDecimalText(chain: ChainInfo)
    ensures PlainTipHeight(chain).text == NatToString(chain.blocks)
  {
    NatToStringParse(PlainTipHeight(chain).text);
  }

  /** The spent sum never exceeds the funded sum while the balance is within
      what was received. */
  lemma SpentWithinFunded(address: string, h: History, mempool: MempoolInfo, balance: BalanceInfo)
    requires 0 <= balance.balance <= balance.received
    ensures var stats := AddressInfo(address, Ok(h), mempool, balance).body.chainStats;
            0 <= stats.spentTxoSum <= stats.fundedTxoSum
  {
  }

  /** The tip height served as text is the height the tip block range starts at. */
  lemma TipHeightStartsRange<BV>(cfg: Config, chain: ChainInfo, range: (nat, Pos) -> seq<RawBlock>,
                                 toView: RawBlock -> BV)
    ensures BlocksRangeAtTip(cfg, chain, range, toView)
         == BlocksRange(cfg, ParseDecimal(PlainTipHeight(chain).text), range, toView)
  {
  }
}
