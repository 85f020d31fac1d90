/** The `Scanner`: its start-up (`Listen`), its poll loop
    (`processBlocks`) and the processing of one master block
    (`processMcBlock`), with the node and the database as inputs. */
module Scanner {
  import opened Base
  import opened Ton
  import opened Backoff
  import opened Discovery
  import opened Fetch
  import opened Notify

  /** A row staged by `addBlock`, which is not part of this model. */
  type Row(==)

  /** The committed contents of the database. */
  datatype Db = Db(rows: seq<Row>)

  /** What `addBlock(master, txDB)` does: the position it leaves the
      scanner at, the rows it stages and its error. */
  datatype AddOutcome = AddOutcome(last: Block, rows: seq<Row>, err: Option<string>)

  /** What the node and the database answer while one master block is
      processed: `GetBlockShardsInfo`, `fillWithNotSeenShards`, the listing
      replies and `GetTransaction` per shard, `addBlock`, and `Commit`. */
  datatype McEnv = McEnv(
    shardsInfo: Result<seq<BlockIdExt>>,
    fill: Filler,
    pages: BlockIdExt -> seq<PageReply>,
    getTx: TxGetter,
    addBlock: (Block, BlockIdExt) -> AddOutcome,
    commit: Option<string>)

  /** Every shard's listing ends (see `RepliesComplete`). */
  ghost predicate EnvComplete(env: McEnv) {
    forall b :: RepliesComplete(env.pages(b))
  }

  /** The fetch of some shard of the map fails. */
  ghost predicate SomeShardFails(shards: map<string, BlockIdExt>, env: McEnv)
    requires EnvComplete(env)
  {
    exists k :: k in shards && ShardFails(env.pages(shards[k]), shards[k], env.getTx)
  }

  /** The transactions of the shards under `keys`, in no particular order. */
  ghost function AllTxs(keys: set<string>, shards: map<string, BlockIdExt>, env: McEnv): multiset<Tx>
    requires keys <= shards.Keys
  {
    if keys == {} then multiset{}
    else
      var k :| k in keys;
      multiset(ShardTxs(env.pages(shards[k]), shards[k], env.getTx)) + AllTxs(keys - {k}, shards, env)
  }

  /** Any shard may be taken first: the total does not depend on the order. */
  lemma {:induction false} AllTxsRemove(keys: set<string>, shards: map<string, BlockIdExt>, env: McEnv, k: string)
    requires k in keys && keys <= shards.Keys
    ensures AllTxs(keys, shards, env) ==
      multiset(ShardTxs(env.pages(shards[k]), shards[k], env.getTx)) + AllTxs(keys - {k}, shards, env)
    decreases keys
  {
    var k' :| k' in keys && AllTxs(keys, shards, env) ==
      multiset(ShardTxs(env.pages(shards[k']), shards[k'], env.getTx)) + AllTxs(keys - {k'}, shards, env);
    if k' != k {
      AllTxsRemove(keys - {k'}, shards, env, k);
      AllTxsRemove(keys - {k}, shards, env, k');
      assert keys - {k'} - {k} == keys - {k} - {k'};
    }
  }

  /** Some transaction of `txs` makes `processTx` fail. */
  ghost predicate SomeTxFails(txs: multiset<Tx>) {
    exists t :: t in txs && ProcessTx(t).Some?
  }

  /** The shards not in `remaining` are fetched: none of them fails and
      `txs` holds their transactions. */
  ghost predicate FetchedSoFar(shards: map<string, BlockIdExt>, env: McEnv, remaining: set<string>, txs: seq<Tx>)
    requires EnvComplete(env)
  {
    && remaining <= shards.Keys
    && (forall k :: k in shards.Keys - remaining ==> !ShardFails(env.pages(shards[k]), shards[k], env.getTx))
    && multiset(txs) == AllTxs(shards.Keys - remaining, shards, env)
  }

  /** Fetching one more shard that does not fail. */
  lemma FetchedOneMore(shards: map<string, BlockIdExt>, env: McEnv, remaining: set<string>, txs: seq<Tx>,
                       k: string, more: seq<Tx>)
    requires EnvComplete(env) && FetchedSoFar(shards, env, remaining, txs) && k in remaining
    requires !ShardFails(env.pages(shards[k]), shards[k], env.getTx)
    requires multiset(more) == multiset(ShardTxs(env.pages(shards[k]), shards[k], env.getTx))
    ensures FetchedSoFar(shards, env, remaining - {k}, txs + more)
  {
    var done := shards.Keys - remaining;
    assert done + {k} == shards.Keys - (remaining - {k});
    AllTxsRemove(done + {k}, shards, env, k);
    assert done + {k} - {k} == done;
  }

  /** One shard's fetch, seen only through its result. */
  method FetchShard(shard: BlockIdExt, env: McEnv) returns (r: Result<seq<Tx>>)
    requires RepliesComplete(env.pages(shard))
    ensures r.Err? <==> ShardFails(env.pages(shard), shard, env.getTx)
    ensures r.Err? ==> IsShardError(env.pages(shard), shard, env.getTx, r.error)
    ensures r.Ok? ==> multiset(r.value) == multiset(ShardTxs(env.pages(shard), shard, env.getTx))
  {
    var requests;
    r, requests := GetTxsFromShard(shard, env.pages(shard), env.getTx);
  }

  /** The per-shard fetch loop of `processMcBlock`: the shards in the map's
      (unspecified) order, stopping at the first shard that fails. */
  method FetchShards(shards: map<string, BlockIdExt>, env: McEnv) returns (r: Result<seq<Tx>>)
    requires EnvComplete(env)
    ensures r.Err? <==> SomeShardFails(shards, env)
    ensures r.Err? ==> exists k :: k in shards && IsShardError(env.pages(shards[k]), shards[k], env.getTx, r.error)
    ensures r.Ok? ==> multiset(r.value) == AllTxs(shards.Keys, shards, env)
  {
    var remaining := shards.Keys;
    var txs: seq<Tx> := [];
    assert shards.Keys - remaining == {};
    while remaining != {}
      invariant FetchedSoFar(shards, env, remaining, txs)
      decreases remaining
    {
      var k :| k in remaining;
      var shardTxs := FetchShard(shards[k], env);
      if shardTxs.Err? {
        return Err(shardTxs.error);
      }
      FetchedOneMore(shards, env, remaining, txs, k, shardTxs.value);
      txs := txs + shardTxs.value;
      remaining := remaining - {k};
    }
    assert shards.Keys - remaining == shards.Keys;
    return Ok(txs);
  }

  /** The supervisor task of `processMcBlock`: every transaction is handed
      to `processTx` (the `break` only leaves the `select`), so every
      notification is logged, and the tomb reports an error exactly when
      some call failed. */
  method ProcessTxs(txs: seq<Tx>) returns (err: Option<string>, logged: seq<Notification>)
    ensures err.Some? <==> exists i :: 0 <= i < |txs| && ProcessTx(txs[i]).Some?
    ensures err.Some? ==> exists i :: 0 <= i < |txs| && ProcessTx(txs[i]) == err
    ensures multiset(logged) == multiset(Notifications(txs))
  {
    err, logged := None, [];
    for i := 0 to |txs|
      invariant err.Some? <==> exists k :: 0 <= k < i && ProcessTx(txs[k]).Some?
      invariant err.Some? ==> exists k :: 0 <= k < i && ProcessTx(txs[k]) == err
      invariant logged == Notifications(txs[..i])
    {
      assert txs[..i + 1][..i] == txs[..i];
      match Classify(txs[i]) {
        case Ignored =>
        case Notified(n) =>
          logged := logged + [n];
        case Failed(e) =>
          if err.None? {
            err := Some(e);
          }
      }
    }
    assert txs[..|txs|] == txs;
  }

  /** The start position: the stored checkpoint's successor if reading it
      succeeds, else the first chain head the node reports. */
  function StartPosition(stored: Result<Block>, heads: seq<Result<BlockIdExt>>): (p: Block)
    requires stored.Err? ==> HasOk(heads)
    ensures stored.Ok? ==>
      p.workchain == stored.value.workchain && p.shard == stored.value.shard
      && p.seqNo == Inc32(stored.value.seqNo)
    ensures stored.Err? ==> p == PositionOf(heads[FirstOk(heads)].value)
  {
    if stored.Ok? then stored.value.(seqNo := Inc32(stored.value.seqNo))
    else PositionOf(heads[FirstOk(heads)].value)
  }

  /** How `Listen` goes: where it starts, how often it retried the head
      query, the positions it looked up, and then either the poll loop's
      trace or one of the retry loops that never ends: the head query or
      the start lookup that never succeeds, or the wait on a first shard
      list that failed. */
  datatype ListenOutcome =
    | Polling(start: Block, headRetries: nat, lookupCalls: seq<Block>, poll: Trace)
    | StuckOnHead(headRetries: nat)
    | StuckOnLookup(start: Block, headRetries: nat, lookupCalls: seq<Block>)
    | StuckOnShards(start: Block, headRetries: nat, lookupCalls: seq<Block>)

  class Scanner {
    var lastBlock: Block
    var lastShardsSeqNo: map<string, Uint32>
    /** `getShardID`, which is not part of this model. */
    const shardID: BlockIdExt -> string

    /** `NewScanner` once the node connections are up: no position yet and
        no watermarks. */
    constructor (shardID: BlockIdExt -> string)
      ensures lastBlock == Block(0, 0, 0)
      ensures lastShardsSeqNo == map[]
      ensures this.shardID == shardID
    {
      lastBlock := Block(0, 0, 0);
      lastShardsSeqNo := map[];
      this.shardID := shardID;
    }

    /** `Listen`: resolves the start position, looks the start block up
        until it is found, seeds the watermarks from its shards and runs
        the poll loop over `events`. `heads` and `lookups` are the replies
        of the successive `GetMasterchainInfo` and `LookupBlock` calls;
        when none of them succeeds, the node never answers and the retry
        loop never ends. */
    method Listen(stored: Result<Block>, heads: seq<Result<BlockIdExt>>, lookups: seq<Result<BlockIdExt>>,
                  firstShards: Result<seq<BlockIdExt>>, events: seq<PollEvent>)
      returns (outcome: ListenOutcome)
      modifies this
      ensures outcome.StuckOnHead? <==> stored.Err? && !HasOk(heads)
      ensures outcome.StuckOnHead? ==>
        && outcome.headRetries == |heads|
        && lastBlock == old(lastBlock) && lastShardsSeqNo == old(lastShardsSeqNo)
      ensures !outcome.StuckOnHead? ==>
        && outcome.start == StartPosition(stored, heads)
        && outcome.headRetries == (if stored.Ok? then 0 else FirstOk(heads))
        && (forall k :: 0 <= k < |outcome.lookupCalls| ==> outcome.lookupCalls[k] == outcome.start)
        && (outcome.StuckOnLookup? <==> !HasOk(lookups))
        && (outcome.StuckOnLookup? ==> |outcome.lookupCalls| == |lookups|)
        && (!outcome.StuckOnLookup? ==> |outcome.lookupCalls| == FirstOk(lookups) + 1)
        && (outcome.StuckOnShards? <==> HasOk(lookups) && firstShards.Err?)
        && (outcome.StuckOnLookup? || outcome.StuckOnShards? ==>
              lastBlock == outcome.start && lastShardsSeqNo == old(lastShardsSeqNo))
        && (outcome.Polling? ==>
              && lastShardsSeqNo == Stamp(old(lastShardsSeqNo), firstShards.value, shardID)
              && outcome.poll == Run(PollState(DelayBase, outcome.start), events)
              && lastBlock == outcome.poll.final.last)
    {
      var headRetries := 0;
      if stored.Ok? {
        lastBlock := stored.value;
        lastBlock := lastBlock.(seqNo := Inc32(lastBlock.seqNo));
      } else {
        var head: Option<BlockIdExt> := None;
        var n := 0;
        while n < |heads| && head.None?
          invariant 0 <= n <= |heads|
          invariant head.None? ==> forall k :: 0 <= k < n ==> heads[k].Err?
          invariant head.Some? ==> 0 < n && heads[n - 1] == Ok(head.value) && forall k :: 0 <= k < n - 1 ==> heads[k].Err?
        {
          if heads[n].Ok? {
            head := Some(heads[n].value);
          }
          n := n + 1;
        }
        if head.None? {
          return StuckOnHead(|heads|);
        }
        headRetries := n - 1;
        assert headRetries == FirstOk(heads);
        lastBlock := PositionOf(head.value);
      }

      var calls: seq<Block> := [];
      var found := false;
      while |calls| < |lookups| && !found
        invariant |calls| <= |lookups|
        invariant forall k :: 0 <= k < |calls| ==> calls[k] == lastBlock
        invariant found <==> 0 < |calls| && lookups[|calls| - 1].Ok?
        invariant forall k :: 0 <= k < |calls| - 1 ==> lookups[k].Err?
        decreases |lookups| - |calls|
      {
        calls := calls + [lastBlock];
        found := lookups[|calls| - 1].Ok?;
      }
      if !found {
        return StuckOnLookup(lastBlock, headRetries, calls);
      }
      assert |calls| - 1 == FirstOk(lookups);

      if firstShards.Err? {
        // the retry loop never calls GetBlockShardsInfo again
        return StuckOnShards(lastBlock, headRetries, calls);
      }
      var start := lastBlock;
      var shards := firstShards.value;
      for i := 0 to |shards|
        invariant lastBlock == start
        invariant Stamp(lastShardsSeqNo, shards[i..], shardID) == Stamp(old(lastShardsSeqNo), shards, shardID)
      {
        assert shards[i..][1..] == shards[i + 1..];
        lastShardsSeqNo := lastShardsSeqNo[shardID(shards[i]) := shards[i].seqNo];
      }
      assert shards[|shards|..] == [];
      var trace := ProcessBlocks(events);
      return Polling(start, headRetries, calls, trace);
    }

    /** `processBlocks` over the iterations described by `events`: the
        trace and the new position are those of the `Run` state machine
        from the base delay. */
    method ProcessBlocks(events: seq<PollEvent>) returns (trace: Trace)
      modifies this`lastBlock
      ensures trace == Run(PollState(DelayBase, old(lastBlock)), events)
      ensures lastBlock == trace.final.last
    {
      var delay := DelayBase;
      var sleeps: seq<nat> := [];
      var lookups: seq<Block> := [];
      for i := 0 to |events|
        invariant Trace(PollState(delay, lastBlock), sleeps, lookups) ==
          Run(PollState(DelayBase, old(lastBlock)), events[..i])
      {
        assert events[..i + 1][..i] == events[..i];
        lookups := lookups + [lastBlock];
        match events[i] {
          case LookupFailed(_) =>
            sleeps := sleeps + [delay];
            delay := delay * 2;
            if delay > DelayMax {
              delay := DelayMax;
            }
          case Looked(_, processErr, after) =>
            delay := DelayBase;
            lastBlock := after;
            if processErr.None? {
              delay := DelayBase;
            } else if Contains(processErr.value, NotInDb) {
              sleeps := sleeps + [delay];
              delay := delay * 2;
              if delay > DelayMax {
                delay := DelayMax;
              }
            }
        }
      }
      assert events[..|events|] == events;
      return Trace(PollState(delay, lastBlock), sleeps, lookups);
    }

    /** The discovery loop of `processMcBlock`, as `Discover` describes it. */
    method DiscoverShards(cs: seq<BlockIdExt>, fill: Filler) returns (shards: map<string, BlockIdExt>, err: Option<string>)
      modifies this`lastShardsSeqNo
      ensures var d := Discover(map[], old(lastShardsSeqNo), cs, 0, fill, shardID);
        shards == d.shards && err == d.err && lastShardsSeqNo == d.watermarks
    {
      shards := map[];
      var i := 0;
      while i < |cs|
        invariant 0 <= i <= |cs|
        invariant Discover(shards, lastShardsSeqNo, cs, i, fill, shardID) ==
          Discover(map[], old(lastShardsSeqNo), cs, 0, fill, shardID)
      {
        var shard := cs[i];
        shards := shards[Key(shard) := shard];
        var filled := fill(shards, shard, lastShardsSeqNo);
        if filled.Err? {
          return shards, Some(filled.error);
        }
        shards := filled.value;
        lastShardsSeqNo := lastShardsSeqNo[shardID(shard) := shard.seqNo];
        i := i + 1;
      }
      err := None;
    }

    /** `processMcBlock`: discovers the shards, fetches their transactions,
        processes them, and then either rolls back and skips the block or
        stages it with `addBlock` and commits. Returns the error and the
        committed database. */
    method ProcessMcBlock(master: BlockIdExt, env: McEnv, db: Db) returns (err: Option<string>, db': Db)
      requires EnvComplete(env)
      modifies this
      ensures env.shardsInfo.Err? ==>
        && err == Some(env.shardsInfo.error)
        && lastShardsSeqNo == old(lastShardsSeqNo) && lastBlock == old(lastBlock) && db' == db
      ensures env.shardsInfo.Ok? ==>
        var cs := env.shardsInfo.value;
        var d := Discover(map[], old(lastShardsSeqNo), cs, 0, env.fill, shardID);
        && lastShardsSeqNo == Stamp(old(lastShardsSeqNo), cs[..d.scanned], shardID)
        && (d.err.Some? ==> err == d.err && lastBlock == old(lastBlock) && db' == db)
        && (d.err.None? && SomeShardFails(d.shards, env) ==>
              && err.Some?
              && (exists k :: k in d.shards && IsShardError(env.pages(d.shards[k]), d.shards[k], env.getTx, err.value))
              && lastBlock == old(lastBlock) && db' == db)
        && (d.err.None? && !SomeShardFails(d.shards, env) ==>
              var all := AllTxs(d.shards.Keys, d.shards, env);
              && (SomeTxFails(all) ==>
                    && err.Some? && (exists t :: t in all && ProcessTx(t) == err)
                    && db' == db
                    && lastBlock == old(lastBlock).(seqNo := Inc32(old(lastBlock).seqNo)))
              && (!SomeTxFails(all) ==>
                    var added := env.addBlock(old(lastBlock), master);
                    && lastBlock == added.last
                    && (added.err.Some? ==> err == added.err && db' == db)
                    && (added.err.None? ==> err == env.commit)
                    && (added.err.None? && env.commit.None? ==> db' == Db(db.rows + added.rows))
                    && (added.err.None? && env.commit.Some? ==> db' == db)))
    {
      db' := db;
      if env.shardsInfo.Err? {
        return Some(env.shardsInfo.error), db';
      }
      var cs := env.shardsInfo.value;
      DiscoverWatermarks(map[], lastShardsSeqNo, cs, 0, env.fill, shardID);
      var shards, discoverErr := DiscoverShards(cs, env.fill);
      if discoverErr.Some? {
        return discoverErr, db';
      }

      var fetched := FetchShards(shards, env);
      if fetched.Err? {
        return Some(fetched.error), db';
      }
      var txs := fetched.value;

      // txDB := app.DB.Begin(): nothing is staged by processTx
      var txErr, _ := ProcessTxs(txs);
      if txErr.Some? {
        assert exists t :: t in multiset(txs) && ProcessTx(t) == txErr;
        // rollback, and start with the next block
        lastBlock := lastBlock.(seqNo := Inc32(lastBlock.seqNo));
        return txErr, db';
      }
      assert !SomeTxFails(multiset(txs));

      var added := env.addBlock(lastBlock, master);
      lastBlock := added.last;
      if added.err.Some? {
        return added.err, db';
      }
      if env.commit.Some? {
        return env.commit, db';
      }
      db' := Db(db.rows + added.rows);
      return None, db';
    }
  }
}
