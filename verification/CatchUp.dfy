/** Many blocks: row keys over a chain, and updateBlock calls in any order. */
module CatchUp {
  import opened Wrappers
  import opened Wire
  import opened TxList
  import opened BlockListener

  // ----- row keys -----

  /** The keys of the chain fit in uint64. */
  ghost predicate NoWrap(t: int, b: Block) {
    b.number * t + |b.entries| <= TWO_64
  }

  lemma IndexOf(t: int, b: Block, i: nat)
    requires 0 < t < 0x8000_0000_0000_0000 && NoWrap(t, b) && i < |b.entries|
    ensures Index(b.number, t, i) == b.number * t + i
  {
    assert t % TWO_64 == t;
  }

  lemma {:induction false} ProductAtLeast(d: nat, t: nat)
    requires d >= 1
    ensures d * t >= t
  {
    if d > 1 {
      ProductAtLeast(d - 1, t);
      assert d * t == (d - 1) * t + t;
    }
  }

  lemma LaterBlockLargerKey(t: nat, a: nat, i: nat, b: nat)
    requires a < b && i < t
    ensures a * t + i < b * t
  {
    ProductAtLeast(b - a, t);
    assert (b - a) * t == b * t - a * t;
  }

  lemma DivisionIsUnique(number: nat, t: nat, i: nat, q: nat, r: nat)
    requires i < t && r < t && q * t + r == number * t + i
    ensures q == number && r == i
  {
    if q < number {
      LaterBlockLargerKey(t, q, r, number);
    } else if number < q {
      LaterBlockLargerKey(t, number, i, q);
    }
  }

  /** In blocks of at most t transactions the key gives back block and position. */
  lemma IndexDecodes(t: int, b: Block, i: nat)
    requires 0 < t < 0x8000_0000_0000_0000 && NoWrap(t, b) && i < |b.entries| <= t
    ensures Index(b.number, t, i) / t == b.number && Index(b.number, t, i) % t == i
  {
    IndexOf(t, b, i);
    var x := Index(b.number, t, i);
    assert x == x / t * t + x % t;
    DivisionIsUnique(b.number, t, i, x / t, x % t);
  }

  /** Keys order the transactions as the chain does. */
  lemma IndexOrders(t: int, a: Block, i: nat, b: Block, j: nat)
    requires 0 < t < 0x8000_0000_0000_0000 && NoWrap(t, a) && NoWrap(t, b)
    requires i < |a.entries| <= t && j < |b.entries| <= t
    ensures Index(a.number, t, i) < Index(b.number, t, j) <==>
            a.number < b.number || (a.number == b.number && i < j)
  {
    IndexOf(t, a, i);
    IndexOf(t, b, j);
    if a.number < b.number {
      LaterBlockLargerKey(t, a.number, i, b.number);
    } else if b.number < a.number {
      LaterBlockLargerKey(t, b.number, j, a.number);
    }
  }

  /** A chain: block i has number i. */
  ghost predicate Numbered(chain: seq<Block>) {
    forall i | 0 <= i < |chain| :: chain[i].number == i && chain[i].Valid()
  }

  /** No two positions of blocks 1.. share a key. */
  ghost predicate KeysUnique(t: int, chain: seq<Block>) {
    forall a, i, b, j | 1 <= a < b < |chain| && 0 <= i < |chain[a].entries| && 0 <= j < |chain[b].entries| ::
      Index(a, t, i) != Index(b, t, j)
  }

  /** A block may run over into the keys of its successors as long as these are empty. */
  ghost predicate SizesFit(t: int, chain: seq<Block>) {
    forall a, b | 1 <= a < b < |chain| && chain[b].entries != [] :: |chain[a].entries| <= (b - a) * t
  }

  lemma KeysOf(t: int, a: Block, i: nat, b: Block, j: nat)
    requires 0 < t < 0x8000_0000_0000_0000 && NoWrap(t, a) && NoWrap(t, b) && a.number < b.number
    requires i < |a.entries| && j < |b.entries|
    ensures Index(a.number, t, i) == Index(b.number, t, j) <==> i == (b.number - a.number) * t + j
  {
    IndexOf(t, a, i);
    IndexOf(t, b, j);
    assert (b.number - a.number) * t == b.number * t - a.number * t;
  }

  /** tx_index tells the transactions of a chain apart exactly when no block reaches the first key of a later one. */
  lemma KeysUniqueIffSizesFit(t: int, chain: seq<Block>)
    requires 0 < t < 0x8000_0000_0000_0000 && Numbered(chain)
    requires forall b <- chain :: b.entries != [] ==> NoWrap(t, b)
    ensures KeysUnique(t, chain) <==> SizesFit(t, chain)
  {
    forall a, i, b, j | SizesFit(t, chain) &&
                        1 <= a < b < |chain| && 0 <= i < |chain[a].entries| && 0 <= j < |chain[b].entries|
      ensures Index(a, t, i) != Index(b, t, j)
    {
      KeysOf(t, chain[a], i, chain[b], j);
    }
    forall a, b | KeysUnique(t, chain) && 1 <= a < b < |chain| && chain[b].entries != []
      ensures |chain[a].entries| <= (b - a) * t
    {
      ProductAtLeast(b - a, t);
      if |chain[a].entries| > (b - a) * t {
        KeysOf(t, chain[a], (b - a) * t, chain[b], 0);
      }
    }
  }

  ghost predicate OnlyLastMayExceed(t: int, chain: seq<Block>) {
    forall a | 1 <= a < |chain| - 1 :: |chain[a].entries| <= t
  }

  /** Where no block is empty, no block but the last may hold more than t transactions. */
  lemma SizesFitWithoutEmptyBlocks(t: int, chain: seq<Block>)
    requires t > 0 && forall b <- chain :: b.entries != []
    ensures SizesFit(t, chain) <==> OnlyLastMayExceed(t, chain)
  {
    if OnlyLastMayExceed(t, chain) {
      forall a, b | 1 <= a < b < |chain| && chain[b].entries != []
        ensures |chain[a].entries| <= (b - a) * t
      {
        ProductAtLeast(b - a, t);
      }
    }
    forall a | SizesFit(t, chain) && 1 <= a < |chain| - 1
      ensures |chain[a].entries| <= t
    {
      var b := a + 1;
      assert chain[b].entries != [] && (b - a) * t == t;
    }
  }

  // ----- updateBlock calls in sequence -----

  datatype Job = Job(block: Block, alice: string, bob: string)

  function RunJobs(t: int, s: Tables, jobs: seq<Job>): Tables
    requires forall j <- jobs :: j.block.Valid()
    decreases |jobs|
  {
    if jobs == [] then s
    else RunJobs(t, Update(t, jobs[0].block, jobs[0].alice, jobs[0].bob, s), jobs[1..])
  }

  /** The two live balance columns blanked out. */
  function Erased(s: Tables): Tables {
    s.(blocks := map n | n in s.blocks :: s.blocks[n].(alice := "", bob := ""))
  }

  function RunBlocks(t: int, s: Tables, bs: seq<Block>): Tables
    requires forall b <- bs :: b.Valid()
    decreases |bs|
  {
    if bs == [] then s else RunBlocks(t, Update(t, bs[0], "", "", s), bs[1..])
  }

  function BlocksOf(jobs: seq<Job>): (r: seq<Block>)
    ensures |r| == |jobs| && forall i | 0 <= i < |r| :: r[i] == jobs[i].block
  {
    if jobs == [] then [] else [jobs[0].block] + BlocksOf(jobs[1..])
  }

  lemma UpdateErased(t: int, b: Block, alice: string, bob: string, s: Tables)
    requires b.Valid()
    ensures Erased(Update(t, b, alice, bob, s)) == Update(t, b, "", "", Erased(s))
  {
    if b.number != 0 {
      UpdateByEffect(t, b, alice, bob, s);
      UpdateByEffect(t, b, "", "", Erased(s));
      assert Erased(Update(t, b, alice, bob, s)).blocks == Update(t, b, "", "", Erased(s)).blocks;
    }
  }

  lemma {:induction false} RunErased(t: int, s: Tables, jobs: seq<Job>)
    requires forall j <- jobs :: j.block.Valid()
    ensures Erased(RunJobs(t, s, jobs)) == RunBlocks(t, Erased(s), BlocksOf(jobs))
    decreases |jobs|
  {
    if jobs != [] {
      var j := jobs[0];
      UpdateErased(t, j.block, j.alice, j.bob, s);
      RunErased(t, Update(t, j.block, j.alice, j.bob, s), jobs[1..]);
      assert BlocksOf(jobs)[1..] == BlocksOf(jobs[1..]);
    }
  }

  /** Any two of the blocks may run in either order. */
  ghost predicate AllCompatible(t: int, txList: map<TxId, PeerTx>, bs: seq<Block>) {
    && (forall b <- bs :: b.Valid())
    && forall i, j | 0 <= i < j < |bs| :: Compatible(t, txList, bs[i], bs[j])
  }

  lemma CompatibleInMultiset(t: int, txList: map<TxId, PeerTx>, bs: seq<Block>, cs: seq<Block>)
    requires AllCompatible(t, txList, bs) && multiset(bs) == multiset(cs)
    ensures AllCompatible(t, txList, cs)
  {
    forall c | c in cs
      ensures c.Valid()
    {
      assert c in multiset(bs);
    }
    forall i, j | 0 <= i < j < |cs|
      ensures Compatible(t, txList, cs[i], cs[j])
    {
      assert cs[i] in multiset(bs) && cs[j] in multiset(bs);
      if cs[i] == cs[j] {
        TwiceInMultiset(cs, i, j);
        NoneTwice(t, txList, bs, cs[i]);
      }
    }
  }

  lemma TwiceInMultiset<T>(s: seq<T>, i: nat, j: nat)
    requires i < j < |s| && s[i] == s[j]
    ensures multiset(s)[s[i]] >= 2
  {
    assert s == s[..i] + [s[i]] + s[i + 1..j] + [s[j]] + s[j + 1..];
  }

  lemma {:induction false} NoneTwice(t: int, txList: map<TxId, PeerTx>, bs: seq<Block>, b: Block)
    requires AllCompatible(t, txList, bs)
    ensures multiset(bs)[b] <= 1
  {
    if bs != [] {
      var front := bs[..|bs| - 1];
      NoneTwice(t, txList, front, b);
      assert bs == front + [bs[|bs| - 1]];
      forall i | 0 <= i < |front|
        ensures front[i] != bs[|bs| - 1]
      {
        assert Compatible(t, txList, bs[i], bs[|bs| - 1]);
      }
    }
  }

  lemma CompatibleLater(t: int, b: Block, s: Tables, bs: seq<Block>)
    requires b.Valid() && AllCompatible(t, s.txList, bs)
    ensures AllCompatible(t, Update(t, b, "", "", s).txList, bs)
  {
    if b.number != 0 {
      AfterTakesIds(b, t, Stop(b.entries), Work(s.txList, s.txs, START));
    }
  }

  function Removed<T>(s: seq<T>, k: nat): seq<T>
    requires k < |s|
  {
    s[..k] + s[k + 1..]
  }

  /** The k-th block may just as well go first. */
  lemma {:induction false} PullToFront(t: int, s: Tables, bs: seq<Block>, k: nat)
    requires k < |bs| && AllCompatible(t, s.txList, bs)
    ensures RunBlocks(t, s, bs) == RunBlocks(t, Update(t, bs[k], "", "", s), Removed(bs, k))
    decreases |bs|
  {
    if k == 0 {
      assert Removed(bs, 0) == bs[1..];
    } else {
      var s1 := Update(t, bs[0], "", "", s);
      CompatibleLater(t, bs[0], s, bs[1..]);
      PullToFront(t, s1, bs[1..], k - 1);
      UpdatesCommute(t, bs[0], "", "", bs[k], "", "", s);
      assert Removed(bs, k)[0] == bs[0] && Removed(bs, k)[1..] == Removed(bs[1..], k - 1);
    }
  }

  lemma RemovedMultiset<T>(s: seq<T>, k: nat)
    requires k < |s|
    ensures multiset(Removed(s, k)) == multiset(s) - multiset{s[k]}
  {
    assert s == s[..k] + [s[k]] + s[k + 1..];
  }

  lemma CompatibleRemoved(t: int, txList: map<TxId, PeerTx>, bs: seq<Block>, k: nat)
    requires k < |bs| && AllCompatible(t, txList, bs)
    ensures AllCompatible(t, txList, Removed(bs, k))
  {
    var r := Removed(bs, k);
    forall i | 0 <= i < |r|
      ensures r[i] == bs[if i < k then i else i + 1]
    {
    }
  }

  lemma {:induction false} OrderDoesNotMatter(t: int, s: Tables, bs: seq<Block>, cs: seq<Block>)
    requires AllCompatible(t, s.txList, bs) && AllCompatible(t, s.txList, cs) && multiset(bs) == multiset(cs)
    ensures RunBlocks(t, s, bs) == RunBlocks(t, s, cs)
    decreases |bs|
  {
    if bs == [] {
      assert |multiset(cs)| == 0;
    } else {
      var b := bs[0];
      assert b in multiset(cs);
      var k :| 0 <= k < |cs| && cs[k] == b;
      PullToFront(t, s, cs, k);
      RemovedMultiset(cs, k);
      RemovedMultiset(bs, 0);
      assert Removed(bs, 0) == bs[1..];
      var s' := Update(t, b, "", "", s);
      CompatibleLater(t, b, s, bs);
      CompatibleLater(t, b, s, cs);
      CompatibleRemoved(t, s'.txList, cs, k);
      CompatibleRemoved(t, s'.txList, bs, 0);
      OrderDoesNotMatter(t, s', bs[1..], Removed(cs, k));
    }
  }

  // ----- the catch-up of a chain -----

  /** A chain whose row keys do not collide and whose awaited transactions sit in one block each. */
  ghost predicate Regular(t: int, txList: map<TxId, PeerTx>, chain: seq<Block>) {
    && Numbered(chain)
    && KeysUnique(t, chain)
    && forall a, b | 1 <= a < b < |chain| :: ShareNoAwaited(txList, chain[a], chain[b])
  }

  lemma BlocksOfChainCompatible(t: int, txList: map<TxId, PeerTx>, chain: seq<Block>, a: nat, b: nat)
    requires Regular(t, txList, chain) && a < b < |chain|
    ensures Compatible(t, txList, chain[a], chain[b])
  {
    forall x | a > 0 && x in AllIndexes(chain[a], t)
      ensures x !in AllIndexes(chain[b], t)
    {
      var i :| 0 <= i < Stop(chain[a].entries) && chain[a].entries[i].Tx? && Index(a, t, i) == x;
    }
  }

  lemma RangeCompatible(t: int, txList: map<TxId, PeerTx>, chain: seq<Block>, h: nat, height: nat)
    requires Regular(t, txList, chain) && h <= height <= |chain|
    ensures AllCompatible(t, txList, chain[h..height])
  {
    var range := chain[h..height];
    forall i, j | 0 <= i < j < |range|
      ensures Compatible(t, txList, range[i], range[j])
    {
      BlocksOfChainCompatible(t, txList, chain, h + i, h + j);
    }
  }

  lemma BlockInBlocksOf(jobs: seq<Job>, j: Job)
    requires j in jobs
    ensures j.block in BlocksOf(jobs)
  {
    var i :| 0 <= i < |jobs| && jobs[i] == j;
    assert BlocksOf(jobs)[i] == j.block;
  }

  /** From any tables, running the updates of blocks h to H-1 in any order ends in the same tables, balances aside. */
  lemma CatchUpInAnyOrder(t: int, s: Tables, chain: seq<Block>, h: nat, height: nat, jobs: seq<Job>, jobs': seq<Job>)
    requires Regular(t, s.txList, chain) && h <= height <= |chain|
    requires multiset(BlocksOf(jobs)) == multiset(BlocksOf(jobs')) == multiset(chain[h..height])
    ensures forall j <- jobs + jobs' :: j.block.Valid()
    ensures Erased(RunJobs(t, s, jobs)) == Erased(RunJobs(t, s, jobs'))
  {
    var range := chain[h..height];
    RangeCompatible(t, s.txList, chain, h, height);
    CompatibleInMultiset(t, s.txList, range, BlocksOf(jobs));
    CompatibleInMultiset(t, s.txList, range, BlocksOf(jobs'));
    forall j | j in jobs + jobs'
      ensures j.block.Valid()
    {
      if j in jobs {
        BlockInBlocksOf(jobs, j);
      } else {
        BlockInBlocksOf(jobs', j);
      }
    }
    RunErased(t, s, jobs);
    RunErased(t, s, jobs');
    OrderDoesNotMatter(t, Erased(s), BlocksOf(jobs), BlocksOf(jobs'));
  }

  /** A block whose rows are all there changes no row when it is processed again. */
  lemma ReattemptChangesNoRow(t: int, b: Block, alice: string, bob: string, s: Tables)
    requires b.Valid()
    requires b.number == 0 || (b.number in s.blocks && AllIndexes(b, t) <= s.txs.Keys)
    ensures var s' := Update(t, b, alice, bob, s);
            s'.blocks == s.blocks && s'.txs == s.txs
  {
    if b.number != 0 {
      UpdateByEffect(t, b, alice, bob, s);
    }
  }
}
