/** Shard discovery in `processMcBlock`: the dedup key of a shard block,
    the watermark map `lastShardsSeqNo` and the discovery loop over the
    shards a master block reports. */
module Discovery {
  import opened Base
  import opened Ton

  /** `fmt.Sprintf("%d:%d:%d", Workchain, Shard, SeqNo)`, the key of the
      per-block shard map. */
  function Key(b: BlockIdExt): string {
    IntToDec(b.workchain) + ":" + IntToDec(b.shard) + ":" + NatToDec(b.seqNo)
  }

  /** Two shard blocks get the same key exactly when they have the same
      workchain, shard and seqno, since `%d` never prints a ':'. Blocks
      that differ only in their hashes collapse into one map entry. */
  lemma KeyInjective(a: BlockIdExt, b: BlockIdExt)
    ensures Key(a) == Key(b) <==> PositionOf(a) == PositionOf(b)
  {
    if Key(a) == Key(b) {
      var ra := IntToDec(a.shard) + ":" + NatToDec(a.seqNo);
      var rb := IntToDec(b.shard) + ":" + NatToDec(b.seqNo);
      assert Key(a) == IntToDec(a.workchain) + [':'] + ra;
      assert Key(b) == IntToDec(b.workchain) + [':'] + rb;
      SplitAtSeparator(IntToDec(a.workchain), ra, IntToDec(b.workchain), rb, ':');
      IntToDecInjective(a.workchain, b.workchain);
      SplitAtSeparator(IntToDec(a.shard), NatToDec(a.seqNo), IntToDec(b.shard), NatToDec(b.seqNo), ':');
      IntToDecInjective(a.shard, b.shard);
      NatToDecInjective(a.seqNo, b.seqNo);
    }
  }

  /** The watermark map after `m[getShardID(b)] = b.SeqNo` for each `b` of
      `bs` in order. */
  function Stamp(wm: map<string, Uint32>, bs: seq<BlockIdExt>, id: BlockIdExt -> string): map<string, Uint32>
    decreases |bs|
  {
    if bs == [] then wm else Stamp(wm[id(bs[0]) := bs[0].seqNo], bs[1..], id)
  }

  /** Entries whose key no block of `bs` has are left alone. */
  lemma {:induction false} StampUntouched(wm: map<string, Uint32>, bs: seq<BlockIdExt>, id: BlockIdExt -> string, key: string)
    requires forall k :: 0 <= k < |bs| ==> id(bs[k]) != key
    ensures key in Stamp(wm, bs, id) <==> key in wm
    ensures key in wm ==> Stamp(wm, bs, id)[key] == wm[key]
    decreases |bs|
  {
    if bs != [] {
      forall k | 0 <= k < |bs| - 1 ensures id(bs[1..][k]) != key {
        assert bs[1..][k] == bs[k + 1];
      }
      StampUntouched(wm[id(bs[0]) := bs[0].seqNo], bs[1..], id, key);
    }
  }

  /** The last block of `bs` with a given shard ID decides its watermark. */
  lemma {:induction false} StampLastWins(wm: map<string, Uint32>, bs: seq<BlockIdExt>, id: BlockIdExt -> string, j: nat)
    requires j < |bs|
    requires forall k :: j < k < |bs| ==> id(bs[k]) != id(bs[j])
    ensures id(bs[j]) in Stamp(wm, bs, id)
    ensures Stamp(wm, bs, id)[id(bs[j])] == bs[j].seqNo
    decreases |bs|
  {
    var wm' := wm[id(bs[0]) := bs[0].seqNo];
    if j == 0 {
      forall k | 0 <= k < |bs| - 1 ensures id(bs[1..][k]) != id(bs[0]) {
        assert bs[1..][k] == bs[k + 1];
      }
      StampUntouched(wm', bs[1..], id, id(bs[0]));
    } else {
      forall k | j - 1 < k < |bs| - 1 ensures id(bs[1..][k]) != id(bs[1..][j - 1]) {
        assert bs[1..][k] == bs[k + 1];
      }
      StampLastWins(wm', bs[1..], id, j - 1);
    }
  }

  /** A watermark some block of `bs` writes does not depend on the map the
      writes start from. */
  lemma {:induction false} StampHitIgnoresBase(m1: map<string, Uint32>, m2: map<string, Uint32>, bs: seq<BlockIdExt>, id: BlockIdExt -> string, j: nat)
    requires j < |bs|
    ensures id(bs[j]) in Stamp(m1, bs, id) && id(bs[j]) in Stamp(m2, bs, id)
    ensures Stamp(m1, bs, id)[id(bs[j])] == Stamp(m2, bs, id)[id(bs[j])]
    decreases |bs| - j
  {
    var key := id(bs[j]);
    if k :| j < k < |bs| && id(bs[k]) == key {
      StampHitIgnoresBase(m1, m2, bs, id, k);
    } else {
      StampLastWins(m1, bs, id, j);
      StampLastWins(m2, bs, id, j);
    }
  }

  /** Seeding twice from the same shard list gives the watermarks seeding
      once gives. */
  lemma StampIdempotent(wm: map<string, Uint32>, bs: seq<BlockIdExt>, id: BlockIdExt -> string)
    ensures Stamp(Stamp(wm, bs, id), bs, id) == Stamp(wm, bs, id)
  {
    var once := Stamp(wm, bs, id);
    var twice := Stamp(once, bs, id);
    forall key | key in once || key in twice
      ensures key in once && key in twice && twice[key] == once[key]
    {
      if j :| 0 <= j < |bs| && id(bs[j]) == key {
        StampHitIgnoresBase(once, wm, bs, id, j);
      } else {
        StampUntouched(once, bs, id, key);
      }
    }
    assert once.Keys == twice.Keys;
  }

  /** `fillWithNotSeenShards(ctx, shards, shard)`, which is not part of this
      model: given the shard map, one reported shard and the watermarks, it
      either fails or yields the shard map with unseen predecessors added. */
  type Filler = (map<string, BlockIdExt>, BlockIdExt, map<string, Uint32>) -> Result<map<string, BlockIdExt>>

  /** Where the discovery loop stops: the shard map, the watermarks, the
      error of `fillWithNotSeenShards` if one failed, and how many reported
      shards had their watermark written. */
  datatype Discovered = Discovered(
    shards: map<string, BlockIdExt>,
    watermarks: map<string, Uint32>,
    err: Option<string>,
    scanned: nat)

  /** The discovery loop from the `i`-th reported shard on. It stops at
      the first failing fill, or after the last shard. */
  function Discover(shards: map<string, BlockIdExt>, wm: map<string, Uint32>, cs: seq<BlockIdExt>, i: nat,
                    fill: Filler, id: BlockIdExt -> string): (d: Discovered)
    requires i <= |cs|
    ensures i <= d.scanned <= |cs|
    ensures d.err.None? <==> d.scanned == |cs|
    decreases |cs| - i
  {
    if i == |cs| then Discovered(shards, wm, None, i)
    else
      var c := cs[i];
      var keyed := shards[Key(c) := c];
      match fill(keyed, c, wm)
      case Err(e) => Discovered(keyed, wm, Some(e), i)
      case Ok(filled) => Discover(filled, wm[id(c) := c.seqNo], cs, i + 1, fill, id)
  }

  /** The loop writes the watermarks of the shards before the one whose
      fill failed, or of all shards, in order; a failure is the error of
      the fill call on the shard where it stopped. */
  lemma {:induction false} DiscoverWatermarks(shards: map<string, BlockIdExt>, wm: map<string, Uint32>, cs: seq<BlockIdExt>, i: nat,
                                              fill: Filler, id: BlockIdExt -> string)
    requires i <= |cs|
    ensures var d := Discover(shards, wm, cs, i, fill, id);
      && d.watermarks == Stamp(wm, cs[i..d.scanned], id)
      && (d.err.Some? ==> fill(d.shards, cs[d.scanned], d.watermarks) == Err(d.err.value))
    decreases |cs| - i
  {
    if i < |cs| {
      var c := cs[i];
      var keyed := shards[Key(c) := c];
      var got := fill(keyed, c, wm);
      if got.Err? {
        assert cs[i..i] == [];
      } else {
        var wm' := wm[id(c) := c.seqNo];
        var d := Discover(got.value, wm', cs, i + 1, fill, id);
        assert Discover(shards, wm, cs, i, fill, id) == d;
        DiscoverWatermarks(got.value, wm', cs, i + 1, fill, id);
        StampStep(wm, cs[i..d.scanned], id);
        assert cs[i..d.scanned][1..] == cs[i + 1..d.scanned];
      }
    }
  }

  lemma StampStep(wm: map<string, Uint32>, bs: seq<BlockIdExt>, id: BlockIdExt -> string)
    requires bs != []
    ensures Stamp(wm, bs, id) == Stamp(wm[id(bs[0]) := bs[0].seqNo], bs[1..], id)
  {
  }
}
