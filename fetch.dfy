/** `getTxsFromShard`: lists a shard block's transactions page by page and
    fetches each one, run here one fetch after another. */
module Fetch {
  import opened Base
  import opened Ton

  const PageSize: nat := 100
  const FetchErrorPrefix: string := "[SCN] failed to get transactions: "

  /** A reply of `GetBlockTransactionsV2`: a page and whether more follow. */
  datatype PageReply = Page(txs: seq<TxShort>, more: bool) | PageError(error: string)

  /** The arguments of one `GetBlockTransactionsV2` call. */
  datatype PageRequest = PageRequest(shard: BlockIdExt, count: nat, after: Option<TxId3>)

  /** `GetTransaction(shard, address of the account, lt)` as the node answers it. */
  type TxGetter = (BlockIdExt, TxShort) -> Result<Tx>

  /** The replies the node gives to the successive listing calls of one
      shard: every reply but the last is a non-empty page with more to
      come, and the last is an error or a page with nothing more. */
  predicate RepliesComplete(replies: seq<PageReply>) {
    && |replies| > 0
    && (forall k :: 0 <= k < |replies| - 1 ==> replies[k].Page? && replies[k].more && replies[k].txs != [])
    && (Last(replies).Page? ==> !Last(replies).more)
  }

  function PageTxs(reply: PageReply): seq<TxShort> {
    if reply.Page? then reply.txs else []
  }

  /** The short descriptors of all pages, in listing order. */
  function Listed(replies: seq<PageReply>): seq<TxShort> {
    if replies == [] then [] else Listed(replies[..|replies| - 1]) + PageTxs(Last(replies))
  }

  /** A fetch error other than "is not in db", which fails the shard. */
  predicate IsFatal(got: Result<Tx>) {
    got.Err? && !Contains(got.error, NotInDb)
  }

  /** The transactions fetched successfully for `shorts`, in order. */
  function Kept(shorts: seq<TxShort>, shard: BlockIdExt, getTx: TxGetter): seq<Tx> {
    if shorts == [] then []
    else Kept(shorts[..|shorts| - 1], shard, getTx)
         + (match getTx(shard, Last(shorts)) case Ok(tx) => [tx] case Err(_) => [])
  }

  /** Some fetch for `shorts` fails fatally. */
  predicate FatalIn(shorts: seq<TxShort>, shard: BlockIdExt, getTx: TxGetter) {
    shorts != [] && (FatalIn(shorts[..|shorts| - 1], shard, getTx) || IsFatal(getTx(shard, Last(shorts))))
  }

  /** The shard's result is an error: a listing call failed or some fetch
      failed with an error other than "is not in db". */
  predicate ShardFails(replies: seq<PageReply>, shard: BlockIdExt, getTx: TxGetter)
    requires |replies| > 0
  {
    Last(replies).PageError? || FatalIn(Listed(replies), shard, getTx)
  }

  /** `e` is an error the shard's fetch can return: the failing listing
      call's error as it is, or some fatal fetch error with the prefix. */
  ghost predicate IsShardError(replies: seq<PageReply>, shard: BlockIdExt, getTx: TxGetter, e: string)
    requires |replies| > 0
  {
    if Last(replies).PageError? then e == Last(replies).error
    else exists k :: 0 <= k < |Listed(replies)| && IsFatal(getTx(shard, Listed(replies)[k]))
                  && e == FetchErrorPrefix + getTx(shard, Listed(replies)[k]).error
  }

  /** The transactions a shard yields when it does not fail. */
  function ShardTxs(replies: seq<PageReply>, shard: BlockIdExt, getTx: TxGetter): seq<Tx> {
    Kept(Listed(replies), shard, getTx)
  }

  lemma {:induction false} FatalInExists(shorts: seq<TxShort>, shard: BlockIdExt, getTx: TxGetter)
    ensures FatalIn(shorts, shard, getTx) <==>
      exists k :: 0 <= k < |shorts| && IsFatal(getTx(shard, shorts[k]))
    decreases |shorts|
  {
    if shorts != [] {
      var init := shorts[..|shorts| - 1];
      FatalInExists(init, shard, getTx);
      if k :| 0 <= k < |shorts| && IsFatal(getTx(shard, shorts[k])) {
        if k < |init| {
          assert init[k] == shorts[k];
        }
      }
      if k :| 0 <= k < |init| && IsFatal(getTx(shard, init[k])) {
        assert init[k] == shorts[k];
      }
    }
  }

  /** A transaction is kept exactly when some fetch returned it; failed
      fetches, "is not in db" or not, contribute nothing. */
  lemma {:induction false} KeptExactly(shorts: seq<TxShort>, shard: BlockIdExt, getTx: TxGetter, tx: Tx)
    ensures tx in Kept(shorts, shard, getTx) <==>
      exists k :: 0 <= k < |shorts| && getTx(shard, shorts[k]) == Ok(tx)
    ensures |Kept(shorts, shard, getTx)| <= |shorts|
    decreases |shorts|
  {
    if shorts != [] {
      var init := shorts[..|shorts| - 1];
      KeptExactly(init, shard, getTx, tx);
      if k :| 0 <= k < |shorts| && getTx(shard, shorts[k]) == Ok(tx) {
        if k < |init| {
          assert init[k] == shorts[k];
        }
      }
      if k :| 0 <= k < |init| && getTx(shard, init[k]) == Ok(tx) {
        assert init[k] == shorts[k];
      }
    }
  }

  /** `txs` and `failed` are what fetching `listed` one by one leaves:
      the kept transactions, and the first fatal error if there is one. */
  ghost predicate Accounted(listed: seq<TxShort>, shard: BlockIdExt, getTx: TxGetter, txs: seq<Tx>, failed: Option<string>) {
    && txs == Kept(listed, shard, getTx)
    && (failed.Some? <==> FatalIn(listed, shard, getTx))
    && (failed.Some? ==>
          exists k :: 0 <= k < |listed| && IsFatal(getTx(shard, listed[k])) && failed.value == getTx(shard, listed[k]).error)
  }

  /** Fetching one more entry: a success is collected, a fatal error is
      kept if none was before, an "is not in db" error is dropped. */
  lemma AccountedOneMore(listed: seq<TxShort>, shard: BlockIdExt, getTx: TxGetter, txs: seq<Tx>, failed: Option<string>,
                         short: TxShort, txs': seq<Tx>, failed': Option<string>)
    requires Accounted(listed, shard, getTx, txs, failed)
    requires var got := getTx(shard, short);
      && txs' == (if got.Ok? then txs + [got.value] else txs)
      && failed' == (if failed.None? && IsFatal(got) then Some(got.error) else failed)
    ensures Accounted(listed + [short], shard, getTx, txs', failed')
  {
    var now := listed + [short];
    assert now[..|now| - 1] == listed;
    if failed'.Some? {
      if failed.Some? {
        var k :| 0 <= k < |listed| && IsFatal(getTx(shard, listed[k])) && failed.value == getTx(shard, listed[k]).error;
        assert now[k] == listed[k];
      } else {
        assert now[|listed|] == short;
      }
    }
  }

  /** The fetches launched for one page (`eg.Go` per entry), with the
      errgroup's first error kept in `failed`. */
  method FetchPage(shard: BlockIdExt, page: seq<TxShort>, getTx: TxGetter,
                   ghost listed: seq<TxShort>, txs: seq<Tx>, failed: Option<string>)
    returns (txs': seq<Tx>, failed': Option<string>)
    requires Accounted(listed, shard, getTx, txs, failed)
    ensures Accounted(listed + page, shard, getTx, txs', failed')
  {
    txs', failed' := txs, failed;
    var j := 0;
    assert listed + page[..0] == listed;
    while j < |page|
      invariant 0 <= j <= |page|
      invariant Accounted(listed + page[..j], shard, getTx, txs', failed')
    {
      var short := page[j];
      ghost var txs0, failed0 := txs', failed';
      match getTx(shard, short) {
        case Ok(tx) =>
          txs' := txs' + [tx];
        case Err(e) =>
          if !Contains(e, NotInDb) && failed'.None? {
            failed' := Some(e);
          }
      }
      AccountedOneMore(listed + page[..j], shard, getTx, txs0, failed0, short, txs', failed');
      assert listed + page[..j + 1] == listed + page[..j] + [short];
      j := j + 1;
    }
    assert page[..j] == page;
  }

  /** The cursor of the `k`-th listing call: none for the first, else the
      last entry of the page before. */
  function CursorOf(replies: seq<PageReply>, k: nat): Option<TxId3> {
    if k == 0 || k > |replies| || !replies[k - 1].Page? || replies[k - 1].txs == [] then None
    else Some(Id3(Last(replies[k - 1].txs)))
  }

  /** What the shard's result is once every page is listed and fetched. */
  lemma ResultOfShard(replies: seq<PageReply>, shard: BlockIdExt, getTx: TxGetter, txs: seq<Tx>, failed: Option<string>)
    requires |replies| > 0 && Last(replies).Page?
    requires Accounted(Listed(replies), shard, getTx, txs, failed)
    ensures failed.Some? <==> ShardFails(replies, shard, getTx)
    ensures failed.Some? ==>
      exists k :: 0 <= k < |Listed(replies)| && IsFatal(getTx(shard, Listed(replies)[k]))
               && failed.value == getTx(shard, Listed(replies)[k]).error
    ensures failed.None? ==> txs == ShardTxs(replies, shard, getTx)
  {
  }

  /** `getTxsFromShard`. Requests page after page, each after the last
      entry of the page before; fetches every listed transaction, dropping
      "is not in db" failures; a listing error is returned as it is, any
      other fetch error fails the whole shard with a prefix. */
  method GetTxsFromShard(shard: BlockIdExt, replies: seq<PageReply>, getTx: TxGetter)
    returns (r: Result<seq<Tx>>, requests: seq<PageRequest>)
    requires RepliesComplete(replies)
    ensures |requests| == |replies|
    ensures forall k :: 0 <= k < |requests| ==> requests[k].shard == shard && requests[k].count == PageSize
    ensures requests[0].after == None
    ensures forall k :: 0 < k < |requests| ==> requests[k].after == Some(Id3(Last(replies[k - 1].txs)))
    ensures r.Err? <==> ShardFails(replies, shard, getTx)
    ensures Last(replies).PageError? ==> r == Err(Last(replies).error)
    ensures Last(replies).Page? && r.Err? ==>
      exists k :: 0 <= k < |Listed(replies)| && IsFatal(getTx(shard, Listed(replies)[k]))
               && r.error == FetchErrorPrefix + getTx(shard, Listed(replies)[k]).error
    ensures r.Ok? ==> multiset(r.value) == multiset(ShardTxs(replies, shard, getTx))
  {
    var after: Option<TxId3> := None;
    var more := true;
    var txs: seq<Tx> := [];
    var failed: Option<string> := None;
    var i := 0;
    requests := [];
    while more
      invariant 0 <= i <= |replies|
      invariant more <==> i < |replies|
      invariant |requests| == i
      invariant forall k :: 0 <= k < i ==> requests[k] == PageRequest(shard, PageSize, CursorOf(replies, k))
      invariant more ==> after == CursorOf(replies, i)
      invariant forall k :: 0 <= k < i ==> replies[k].Page?
      invariant Accounted(Listed(replies[..i]), shard, getTx, txs, failed)
      decreases |replies| - i
    {
      requests := requests + [PageRequest(shard, PageSize, after)];
      var reply := replies[i];
      if reply.PageError? {
        assert i == |replies| - 1;
        r := Err(reply.error);
        return;
      }
      more := reply.more;
      assert more <==> i + 1 < |replies|;
      if more {
        after := Some(Id3(reply.txs[|reply.txs| - 1]));
      }
      ghost var listed := Listed(replies[..i]);
      txs, failed := FetchPage(shard, reply.txs, getTx, listed, txs, failed);
      assert Listed(replies[..i + 1]) == listed + reply.txs by {
        assert replies[..i + 1][..i] == replies[..i];
      }
      i := i + 1;
    }
    assert replies[..i] == replies;
    ResultOfShard(replies, shard, getTx, txs, failed);
    if failed.Some? {
      r := Err(FetchErrorPrefix + failed.value);
    } else {
      r := Ok(txs);
    }
  }
}
