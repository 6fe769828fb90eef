/** Mirroring blocks into the database: updateBlock in server/block_listener.go. */
module BlockListener {
  import opened Wrappers
  import opened Wire
  import opened TxList

  datatype Time = Time(seconds: int, nanos: int)

  /** What updateBlock makes of one element of the block data. */
  datatype Entry = BadEnvelope | BadPayload | Tx(id: TxId, time: Time)

  /** `filter` is the transactions filter of the block metadata, which holds the validation codes. */
  datatype Block = Block(number: uint64, dataHash: Bytes, entries: seq<Entry>, filter: Bytes) {
    /** There is a code for every transaction the loop comes to. */
    predicate HasCodes() {
      forall i | 0 <= i < Stop(entries) && entries[i].Tx? :: i < |filter|
    }

    /** The codes of block 0 are never read. */
    predicate Valid() {
      number != 0 ==> HasCodes()
    }
  }

  datatype TxRow = TxRow(block: nat, txId: TxId, peer: string, txType: int, status: int, time: Time)
  datatype BlockRow = BlockRow(
    hash: Bytes, txCount: nat, time: Option<Time>, alice: string, bob: string, blockType: int)

  datatype Tables = Tables(txList: map<TxId, PeerTx>, blocks: map<nat, BlockRow>, txs: map<nat, TxRow>)

  /** INSERT: a row whose key exists is rejected. */
  function Insert<K, V>(m: map<K, V>, k: K, v: V): map<K, V> {
    if k in m then m else m[k := v]
  }

  /** tx_index: number * uint64(TxNumPerBlock) + uint64(i), on uint64. */
  function Index(number: nat, txNumPerBlock: int, i: nat): nat {
    (number * (txNumPerBlock % TWO_64) + i) % TWO_64
  }

  /** A transaction of one to three byzantine peers is shown as invalid. */
  function Status(peerType: int, code: byte): int {
    if 1 <= peerType <= 3 then 1 else code
  }

  function BlockType(peerType: int): int {
    if peerType > 0 then (if peerType <= 3 then 0 else 1) else peerType
  }

  /** Where the loop breaks off: the first envelope that does not decode, or the end. */
  function Stop(es: seq<Entry>): (r: nat)
    ensures r <= |es|
    ensures forall i | 0 <= i < r :: !es[i].BadEnvelope?
    ensures r < |es| ==> es[r].BadEnvelope?
  {
    if es == [] || es[0].BadEnvelope? then 0 else 1 + Stop(es[1..])
  }

  // ----- the loop as a function -----

  /** The positions of a block that become rows. */
  predicate IsRow(b: Block, i: nat) {
    i < Stop(b.entries) && b.entries[i].Tx?
  }

  datatype Carry = Carry(peer: string, peerType: int, time: Option<Time>)
  datatype Work = Work(txList: map<TxId, PeerTx>, txs: map<nat, TxRow>, carry: Carry)

  const DEFAULT_PEER := "peer0.org1.example.com"
  const START := Carry(DEFAULT_PEER, 0, None)

  function RowOf(b: Block, i: nat, peer: string, peerType: int): TxRow
    requires b.HasCodes() && IsRow(b, i)
  {
    TxRow(b.number, b.entries[i].id, peer, if peerType > 0 then 1 else 0,
          Status(peerType, b.filter[i]), b.entries[i].time)
  }

  function Attributed(carry: Carry, txList: map<TxId, PeerTx>, e: Entry): Carry
    requires e.Tx?
  {
    if e.id in txList then Carry(txList[e.id].peerName, txList[e.id].peerType, Some(e.time))
    else carry.(time := Some(e.time))
  }

  function Visit(b: Block, txNumPerBlock: int, i: nat, w: Work): Work
    requires b.HasCodes() && i < Stop(b.entries)
  {
    var e := b.entries[i];
    if !e.Tx? then w
    else
      var carry := Attributed(w.carry, w.txList, e);
      Work(w.txList - {e.id},
           Insert(w.txs, Index(b.number, txNumPerBlock, i), RowOf(b, i, carry.peer, carry.peerType)),
           carry)
  }

  /** The state of the loop after the first n elements. */
  function After(b: Block, txNumPerBlock: int, n: nat, w: Work): Work
    requires b.HasCodes() && n <= Stop(b.entries)
  {
    if n == 0 then w else Visit(b, txNumPerBlock, n - 1, After(b, txNumPerBlock, n - 1, w))
  }

  function Update(txNumPerBlock: int, b: Block, alice: string, bob: string, s: Tables): Tables
    requires b.Valid()
  {
    if b.number == 0 then s
    else
      var w := After(b, txNumPerBlock, Stop(b.entries), Work(s.txList, s.txs, START));
      var row := BlockRow(b.dataHash, |b.entries|, w.carry.time, alice, bob, BlockType(w.carry.peerType));
      Tables(w.txList, Insert<nat, BlockRow>(s.blocks, b.number, row), w.txs)
  }

  // ----- the method -----

  class Indexer {
    const txNumPerBlock: int
    const txList: SyncMap
    var blocks: map<nat, BlockRow>
    var txs: map<nat, TxRow>

    ghost function Abstract(): Tables
      reads this, txList
    {
      Tables(txList.entries, blocks, txs)
    }

    constructor (txNumPerBlock: int, txList: SyncMap, blocks: map<nat, BlockRow>, txs: map<nat, TxRow>)
      ensures this.txNumPerBlock == txNumPerBlock && this.txList == txList
      ensures this.blocks == blocks && this.txs == txs
    {
      this.txNumPerBlock, this.txList, this.blocks, this.txs := txNumPerBlock, txList, blocks, txs;
    }

    /** `alice` and `bob` are the balances the two queries return. */
    method UpdateBlock(b: Block, alice: string, bob: string)
      requires b.Valid()
      modifies this, txList
      ensures Abstract() == Update(txNumPerBlock, b, alice, bob, old(Abstract()))
    {
      if b.number == 0 {
        return;
      }
      var blockRows, txRows := blocks, txs;
      var peerName, peerType, txTime := DEFAULT_PEER, 0, None;
      var i := 0;
      ghost var w0 := Work(txList.entries, txRows, START);
      while i < |b.entries|
        invariant i <= |b.entries|
        invariant i <= Stop(b.entries)
        invariant Work(txList.entries, txRows, Carry(peerName, peerType, txTime)) == After(b, txNumPerBlock, i, w0)
      {
        if b.entries[i].BadEnvelope? {
          break;
        }
        assert i < Stop(b.entries);
        if b.entries[i].BadPayload? {
          i := i + 1;
          continue;
        }
        var txId := b.entries[i].id;
        txTime := Some(b.entries[i].time);
        var validationCode: int := b.filter[i];
        var val := txList.Load(txId);
        if val.Some? {
          peerName := val.value.peerName;
          peerType := val.value.peerType;
          txList.Delete(txId);
        }
        if peerType > 0 {
          if peerType <= 3 {
            validationCode := 1;
          }
        }
        var s := 0;
        if peerType > 0 {
          s := 1;
        }
        assert val.None? ==> txList.entries - {txId} == txList.entries;
        txRows := Insert(txRows, Index(b.number, txNumPerBlock, i),
                         TxRow(b.number, txId, peerName, s, validationCode, b.entries[i].time));
        i := i + 1;
      }
      assert i == Stop(b.entries);
      if peerType > 0 {
        if peerType <= 3 {
          peerType := 0;
        } else {
          peerType := 1;
        }
      }
      blockRows := Insert<nat, BlockRow>(
        blockRows, b.number, BlockRow(b.dataHash, |b.entries|, txTime, alice, bob, peerType));
      blocks, txs := blockRows, txRows;
    }
  }

  lemma StopIs(es: seq<Entry>, i: nat)
    requires i <= |es| && forall k | 0 <= k < i :: !es[k].BadEnvelope?
    requires i < |es| ==> es[i].BadEnvelope?
    ensures Stop(es) == i
  {
  }

  // ----- attribution by position -----

  /** Position j finds its transaction in the list: it is there, and no earlier position took it. */
  ghost predicate Hit(b: Block, txList: map<TxId, PeerTx>, j: nat) {
    && j < Stop(b.entries)
    && b.entries[j].Tx?
    && b.entries[j].id in txList
    && forall k | 0 <= k < j && b.entries[k].Tx? :: b.entries[k].id != b.entries[j].id
  }

  ghost predicate NoHit(b: Block, txList: map<TxId, PeerTx>, from: nat, to: nat) {
    forall k | from <= k < to :: !Hit(b, txList, k)
  }

  /** The ids of the transactions among the first n elements. */
  ghost function Ids(b: Block, n: nat): set<TxId>
    requires n <= |b.entries|
  {
    set k | 0 <= k < n && b.entries[k].Tx? :: b.entries[k].id
  }

  lemma IdsOneMore(b: Block, n: nat)
    requires n < |b.entries|
    ensures Ids(b, n + 1) == Ids(b, n) + if b.entries[n].Tx? then {b.entries[n].id} else {}
  {
    if b.entries[n].Tx? {
      assert b.entries[n].id in Ids(b, n + 1);
    }
  }

  lemma {:induction false} AfterTakesIds(b: Block, t: int, n: nat, w: Work)
    requires b.HasCodes() && n <= Stop(b.entries)
    ensures After(b, t, n, w).txList == w.txList - Ids(b, n)
  {
    if n > 0 {
      AfterTakesIds(b, t, n - 1, w);
      IdsOneMore(b, n - 1);
    }
  }

  /** The peer and type of the last hit among the first n elements, or the default. */
  ghost predicate CarriesLastHit(b: Block, txList: map<TxId, PeerTx>, n: nat, carry: Carry) {
    && (forall j | 0 <= j < n && Hit(b, txList, j) && NoHit(b, txList, j + 1, n) ::
          carry.peer == txList[b.entries[j].id].peerName && carry.peerType == txList[b.entries[j].id].peerType)
    && (NoHit(b, txList, 0, n) ==> carry.peer == DEFAULT_PEER && carry.peerType == 0)
  }

  lemma HitIsFound(b: Block, t: int, j: nat, w: Work)
    requires b.HasCodes() && j < Stop(b.entries)
    ensures var e := b.entries[j];
            Hit(b, w.txList, j) <==> e.Tx? && e.id in After(b, t, j, w).txList
  {
    AfterTakesIds(b, t, j, w);
    var e := b.entries[j];
    assert e.Tx? ==> (e.id in Ids(b, j) <==> exists k :: 0 <= k < j && b.entries[k].Tx? && b.entries[k].id == e.id);
  }

  /** The carry changes at a hit and nowhere else. */
  lemma CarryChangesAtHit(b: Block, t: int, j: nat, w: Work)
    requires b.HasCodes() && j < Stop(b.entries)
    ensures var before, after := After(b, t, j, w).carry, After(b, t, j + 1, w).carry;
            if Hit(b, w.txList, j)
            then after.peer == w.txList[b.entries[j].id].peerName &&
                 after.peerType == w.txList[b.entries[j].id].peerType
            else after.peer == before.peer && after.peerType == before.peerType
  {
    AfterTakesIds(b, t, j, w);
    HitIsFound(b, t, j, w);
  }

  lemma {:induction false} AfterCarriesLastHit(b: Block, t: int, n: nat, w: Work)
    requires b.HasCodes() && n <= Stop(b.entries) && w.carry == START
    ensures CarriesLastHit(b, w.txList, n, After(b, t, n, w).carry)
  {
    if n > 0 {
      AfterCarriesLastHit(b, t, n - 1, w);
      CarryChangesAtHit(b, t, n - 1, w);
      CarryOneMore(b, w.txList, n, After(b, t, n - 1, w).carry, After(b, t, n, w).carry);
    }
  }

  lemma CarryOneMore(b: Block, txList: map<TxId, PeerTx>, n: nat, before: Carry, after: Carry)
    requires 0 < n <= Stop(b.entries) && CarriesLastHit(b, txList, n - 1, before)
    requires if Hit(b, txList, n - 1)
             then after.peer == txList[b.entries[n - 1].id].peerName &&
                  after.peerType == txList[b.entries[n - 1].id].peerType
             else after.peer == before.peer && after.peerType == before.peerType
    ensures CarriesLastHit(b, txList, n, after)
  {
    forall j | 0 <= j < n && Hit(b, txList, j) && NoHit(b, txList, j + 1, n)
      ensures after.peer == txList[b.entries[j].id].peerName && after.peerType == txList[b.entries[j].id].peerType
    {
      assert j < n - 1 ==> !Hit(b, txList, n - 1) && NoHit(b, txList, j + 1, n - 1);
    }
  }

  ghost function Indexes(b: Block, t: int, n: nat): set<nat>
    requires n <= |b.entries|
  {
    set i | 0 <= i < n && b.entries[i].Tx? :: Index(b.number, t, i)
  }

  lemma IndexesOneMore(b: Block, t: int, n: nat)
    requires n < |b.entries|
    ensures Indexes(b, t, n + 1) == Indexes(b, t, n) + if b.entries[n].Tx? then {Index(b.number, t, n)} else {}
  {
    if b.entries[n].Tx? {
      assert Index(b.number, t, n) in Indexes(b, t, n + 1);
    }
  }

  /** The rows a block contributes when no key is taken yet. */
  ghost function NewRows(b: Block, t: int, n: nat, txList: map<TxId, PeerTx>): map<nat, TxRow>
    requires b.HasCodes() && n <= Stop(b.entries)
  {
    After(b, t, n, Work(txList, map[], START)).txs
  }

  lemma InsertUnder<K, V>(m: map<K, V>, r: map<K, V>, k: K, v: V)
    ensures Insert(m + r, k, v) == Insert(m, k, v) + r
  {
    var x, y := Insert(m + r, k, v), Insert(m, k, v) + r;
    assert x.Keys == y.Keys && forall j <- x :: x[j] == y[j];
  }

  /** Rows already in the table neither change nor change the work on the block. */
  lemma {:induction false} AfterKeepsRows(b: Block, t: int, n: nat, txList: map<TxId, PeerTx>, rows: map<nat, TxRow>)
    requires b.HasCodes() && n <= Stop(b.entries)
    ensures var w := After(b, t, n, Work(txList, map[], START));
            After(b, t, n, Work(txList, rows, START)) == w.(txs := w.txs + rows)
  {
    if n == 0 {
      assert map[] + rows == rows;
    } else {
      AfterKeepsRows(b, t, n - 1, txList, rows);
      var w := After(b, t, n - 1, Work(txList, map[], START));
      if b.entries[n - 1].Tx? {
        var carry := Attributed(w.carry, w.txList, b.entries[n - 1]);
        InsertUnder(w.txs, rows, Index(b.number, t, n - 1), RowOf(b, n - 1, carry.peer, carry.peerType));
      }
    }
  }

  lemma {:induction false} NewRowsKeys(b: Block, t: int, n: nat, txList: map<TxId, PeerTx>)
    requires b.HasCodes() && n <= Stop(b.entries)
    ensures NewRows(b, t, n, txList).Keys == Indexes(b, t, n)
  {
    if n > 0 {
      NewRowsKeys(b, t, n - 1, txList);
      IndexesOneMore(b, t, n - 1);
    }
  }

  /** The row of position i under the given peer and type: 1 for a byzantine transaction, invalid for one to three. */
  ghost predicate Shows(b: Block, i: nat, row: TxRow, peer: string, peerType: int)
    requires b.HasCodes() && IsRow(b, i)
  {
    && row.block == b.number && row.txId == b.entries[i].id && row.time == b.entries[i].time && row.peer == peer
    && row.txType == (if peerType >= 1 then 1 else 0)
    && row.status == if peerType in {1, 2, 3} then 1 else b.filter[i]
  }

  /** A row as the attribution law wants it. */
  ghost predicate RowIsAttributed(b: Block, txList: map<TxId, PeerTx>, i: nat, row: TxRow)
    requires b.HasCodes()
  {
    && IsRow(b, i)
    && (forall j | 0 <= j <= i && Hit(b, txList, j) && NoHit(b, txList, j + 1, i + 1) ::
          Shows(b, i, row, txList[b.entries[j].id].peerName, txList[b.entries[j].id].peerType))
    && (NoHit(b, txList, 0, i + 1) ==> Shows(b, i, row, "peer0.org1.example.com", 0))
  }

  lemma ShowsIsRowOf(b: Block, i: nat, row: TxRow, peer: string, peerType: int)
    requires b.HasCodes() && IsRow(b, i)
    ensures Shows(b, i, row, peer, peerType) <==> row == RowOf(b, i, peer, peerType)
  {
  }

  /** A Go slice has fewer than 2^63 elements, so the keys of one block never wrap onto each other. */
  predicate SliceSized(b: Block) {
    |b.entries| < 0x8000_0000_0000_0000
  }

  lemma SumsModuloDiffer(x: int, j: nat, k: nat)
    requires j < k < TWO_64
    ensures (x + j) % TWO_64 != (x + k) % TWO_64
  {
    var q, r := (x + j) / TWO_64, (x + k) / TWO_64;
    assert x + j == q * TWO_64 + (x + j) % TWO_64;
    assert x + k == r * TWO_64 + (x + k) % TWO_64;
  }

  lemma KeysOfBlockDiffer(b: Block, t: int)
    requires SliceSized(b)
    ensures forall j, k | 0 <= j < k < |b.entries| :: Index(b.number, t, j) != Index(b.number, t, k)
  {
    forall j, k | 0 <= j < k < |b.entries|
      ensures Index(b.number, t, j) != Index(b.number, t, k)
    {
      SumsModuloDiffer(b.number * (t % TWO_64), j, k);
    }
  }

  lemma {:induction false} NewRowsAttributed(b: Block, t: int, n: nat, txList: map<TxId, PeerTx>, i: nat)
    requires b.HasCodes() && i < n <= Stop(b.entries) && b.entries[i].Tx?
    requires forall j, k | 0 <= j < k < |b.entries| :: Index(b.number, t, j) != Index(b.number, t, k)
    ensures Index(b.number, t, i) in NewRows(b, t, n, txList)
    ensures RowIsAttributed(b, txList, i, NewRows(b, t, n, txList)[Index(b.number, t, i)])
  {
    var w := Work(txList, map[], START);
    if i < n - 1 {
      NewRowsAttributed(b, t, n - 1, txList, i);
      assert Index(b.number, t, i) != Index(b.number, t, n - 1);
    } else {
      NewRowsKeys(b, t, i, txList);
      AfterCarriesLastHit(b, t, n, w);
    }
  }

  /**
   Attribution of a block: every row it adds shows the peer and type of the last transaction up to
   it that was still awaited, older rows stay, and the list loses exactly the block's ids.
   */
  lemma AttributionIsLastHit(t: int, b: Block, alice: string, bob: string, s: Tables)
    requires b.Valid() && SliceSized(b) && b.number != 0
    ensures var s' := Update(t, b, alice, bob, s);
            && s'.txList == s.txList - Ids(b, Stop(b.entries))
            && s'.txs.Keys == s.txs.Keys + Indexes(b, t, Stop(b.entries))
            && (forall k <- s.txs :: s'.txs[k] == s.txs[k])
            && (forall i | IsRow(b, i) && Index(b.number, t, i) !in s.txs ::
                  RowIsAttributed(b, s.txList, i, s'.txs[Index(b.number, t, i)]))
  {
    var n := Stop(b.entries);
    KeysOfBlockDiffer(b, t);
    AfterTakesIds(b, t, n, Work(s.txList, s.txs, START));
    AfterKeepsRows(b, t, n, s.txList, s.txs);
    NewRowsKeys(b, t, n, s.txList);
    forall i | IsRow(b, i) && Index(b.number, t, i) !in s.txs
      ensures RowIsAttributed(b, s.txList, i, Update(t, b, alice, bob, s).txs[Index(b.number, t, i)])
    {
      NewRowsAttributed(b, t, n, s.txList, i);
    }
  }

  /** Position i holds the last transaction among the first n elements. */
  ghost predicate IsLastTx(b: Block, i: nat, n: nat) {
    i < n <= |b.entries| && b.entries[i].Tx? && forall k | i < k < n :: !b.entries[k].Tx?
  }

  function LastTime(b: Block, n: nat): Option<Time>
    requires n <= |b.entries|
  {
    if n == 0 then None
    else if b.entries[n - 1].Tx? then Some(b.entries[n - 1].time)
    else LastTime(b, n - 1)
  }

  lemma {:induction false} LastTimeIsOfLastTx(b: Block, n: nat)
    requires n <= |b.entries|
    ensures forall i: nat | IsLastTx(b, i, n) :: LastTime(b, n) == Some(b.entries[i].time)
    ensures (forall i | 0 <= i < n :: !b.entries[i].Tx?) ==> LastTime(b, n) == None
  {
    if n > 0 {
      LastTimeIsOfLastTx(b, n - 1);
      assert forall i: nat :: i < n - 1 && IsLastTx(b, i, n) ==> IsLastTx(b, i, n - 1);
    }
  }

  lemma {:induction false} AfterCarriesLastTime(b: Block, t: int, n: nat, w: Work)
    requires b.HasCodes() && n <= Stop(b.entries) && w.carry == START
    ensures After(b, t, n, w).carry.time == LastTime(b, n)
  {
    if n > 0 {
      AfterCarriesLastTime(b, t, n - 1, w);
    }
  }

  /** The block row counts every element of the block and shows its last hit and its last transaction time. */
  lemma BlockRowIsLastHit(t: int, b: Block, alice: string, bob: string, s: Tables)
    requires b.Valid() && b.number != 0 && b.number !in s.blocks
    ensures var s' := Update(t, b, alice, bob, s);
            && s'.blocks.Keys == s.blocks.Keys + {b.number as nat}
            && (forall k <- s.blocks :: s'.blocks[k] == s.blocks[k])
            && var row := s'.blocks[b.number];
            && row.hash == b.dataHash && row.txCount == |b.entries| && row.alice == alice && row.bob == bob
            && (forall j: nat | Hit(b, s.txList, j) && NoHit(b, s.txList, j + 1, Stop(b.entries)) ::
                  var peerType := s.txList[b.entries[j].id].peerType;
                  row.blockType == if peerType <= 0 then peerType else if peerType <= 3 then 0 else 1)
            && (NoHit(b, s.txList, 0, Stop(b.entries)) ==> row.blockType == 0)
            && (forall i: nat | IsLastTx(b, i, Stop(b.entries)) :: row.time == Some(b.entries[i].time))
            && ((forall i | 0 <= i < Stop(b.entries) :: !b.entries[i].Tx?) ==> row.time == None)
  {
    var n, w := Stop(b.entries), Work(s.txList, s.txs, START);
    AfterCarriesLastHit(b, t, n, w);
    AfterCarriesLastTime(b, t, n, w);
    LastTimeIsOfLastTx(b, n);
  }

  // ----- two blocks in either order -----

  ghost predicate AgreeOn(l: map<TxId, PeerTx>, l': map<TxId, PeerTx>, ids: set<TxId>) {
    forall id <- ids :: (id in l <==> id in l') && (id in l ==> l[id] == l'[id])
  }

  /** A block looks up its own ids and nothing else. */
  lemma {:induction false} AfterAgrees(
    b: Block, t: int, n: nat, l: map<TxId, PeerTx>, l': map<TxId, PeerTx>, rows: map<nat, TxRow>)
    requires b.HasCodes() && n <= Stop(b.entries) && AgreeOn(l, l', Ids(b, n))
    ensures var w, w' := After(b, t, n, Work(l, rows, START)), After(b, t, n, Work(l', rows, START));
            w.carry == w'.carry && w.txs == w'.txs
  {
    if n > 0 {
      IdsOneMore(b, n - 1);
      AfterAgrees(b, t, n - 1, l, l', rows);
      AfterTakesIds(b, t, n - 1, Work(l, rows, START));
      AfterTakesIds(b, t, n - 1, Work(l', rows, START));
    }
  }

  ghost function AllIds(b: Block): set<TxId> {
    Ids(b, Stop(b.entries))
  }

  ghost function AllIndexes(b: Block, t: int): set<nat> {
    Indexes(b, t, Stop(b.entries))
  }

  /** No awaited transaction is in both blocks. */
  ghost predicate ShareNoAwaited(txList: map<TxId, PeerTx>, a: Block, b: Block) {
    AllIds(a) * AllIds(b) !! txList.Keys
  }

  /** Different numbers, different row keys, no awaited transaction in both; block 0 is never stored. */
  ghost predicate Compatible(t: int, txList: map<TxId, PeerTx>, a: Block, b: Block) {
    && a.number != b.number
    && (a.number == 0 || b.number == 0 ||
        (AllIndexes(a, t) !! AllIndexes(b, t) && ShareNoAwaited(txList, a, b)))
  }

  /** A block by its effect: the row it adds to the block table, and the rows it adds to the other. */
  ghost function BlockRowOf(t: int, b: Block, alice: string, bob: string, txList: map<TxId, PeerTx>): BlockRow
    requires b.HasCodes()
  {
    var carry := After(b, t, Stop(b.entries), Work(txList, map[], START)).carry;
    BlockRow(b.dataHash, |b.entries|, carry.time, alice, bob, BlockType(carry.peerType))
  }

  ghost function RowsOf(t: int, b: Block, txList: map<TxId, PeerTx>): map<nat, TxRow>
    requires b.HasCodes()
  {
    NewRows(b, t, Stop(b.entries), txList)
  }

  lemma UpdateByEffect(t: int, b: Block, alice: string, bob: string, s: Tables)
    requires b.Valid() && b.number != 0
    ensures Update(t, b, alice, bob, s) ==
            Tables(s.txList - AllIds(b),
                   Insert<nat, BlockRow>(s.blocks, b.number, BlockRowOf(t, b, alice, bob, s.txList)),
                   RowsOf(t, b, s.txList) + s.txs)
    ensures RowsOf(t, b, s.txList).Keys == AllIndexes(b, t)
  {
    AfterTakesIds(b, t, Stop(b.entries), Work(s.txList, s.txs, START));
    AfterKeepsRows(b, t, Stop(b.entries), s.txList, s.txs);
    NewRowsKeys(b, t, Stop(b.entries), s.txList);
  }

  lemma EffectUnchanged(t: int, a: Block, b: Block, alice: string, bob: string, txList: map<TxId, PeerTx>)
    requires a.HasCodes() && b.HasCodes() && ShareNoAwaited(txList, a, b)
    ensures RowsOf(t, b, txList - AllIds(a)) == RowsOf(t, b, txList)
    ensures BlockRowOf(t, b, alice, bob, txList - AllIds(a)) == BlockRowOf(t, b, alice, bob, txList)
  {
    forall id | id in AllIds(b)
      ensures id in txList <==> id in txList - AllIds(a)
    {
      assert id in AllIds(a) ==> id in AllIds(a) * AllIds(b);
    }
    AfterAgrees(b, t, Stop(b.entries), txList, txList - AllIds(a), map[]);
  }

  lemma MergeSwaps<K, V>(a: map<K, V>, b: map<K, V>, rest: map<K, V>)
    requires a.Keys !! b.Keys
    ensures a + (b + rest) == b + (a + rest)
  {
    var x, y := a + (b + rest), b + (a + rest);
    assert x.Keys == y.Keys && forall k <- x :: x[k] == y[k];
  }

  lemma InsertSwaps<K, V>(m: map<K, V>, j: K, v: V, k: K, u: V)
    requires j != k
    ensures Insert(Insert(m, j, v), k, u) == Insert(Insert(m, k, u), j, v)
  {
    var x, y := Insert(Insert(m, j, v), k, u), Insert(Insert(m, k, u), j, v);
    assert x.Keys == y.Keys && forall i <- x :: x[i] == y[i];
  }

  lemma MinusSwaps<K, V>(m: map<K, V>, a: set<K>, b: set<K>)
    ensures m - a - b == m - b - a
  {
    var x, y := m - a - b, m - b - a;
    assert x.Keys == y.Keys && forall k <- x :: x[k] == y[k];
  }

  lemma UpdatesCommute(t: int, a: Block, alice: string, bob: string, b: Block, alice': string, bob': string, s: Tables)
    requires a.Valid() && b.Valid() && Compatible(t, s.txList, a, b)
    ensures Update(t, b, alice', bob', Update(t, a, alice, bob, s)) ==
            Update(t, a, alice, bob, Update(t, b, alice', bob', s))
  {
    if a.number != 0 && b.number != 0 {
      var sa, sb := Update(t, a, alice, bob, s), Update(t, b, alice', bob', s);
      UpdateByEffect(t, a, alice, bob, s);
      UpdateByEffect(t, b, alice', bob', s);
      UpdateByEffect(t, b, alice', bob', sa);
      UpdateByEffect(t, a, alice, bob, sb);
      EffectUnchanged(t, a, b, alice', bob', s.txList);
      EffectUnchanged(t, b, a, alice, bob, s.txList);
      MergeSwaps(RowsOf(t, a, s.txList), RowsOf(t, b, s.txList), s.txs);
      InsertSwaps<nat, BlockRow>(s.blocks, a.number, BlockRowOf(t, a, alice, bob, s.txList),
                                 b.number, BlockRowOf(t, b, alice', bob', s.txList));
      MinusSwaps(s.txList, AllIds(a), AllIds(b));
    }
  }

  lemma {:induction false} RowNamesItsBlock(b: Block, t: int, n: nat, txList: map<TxId, PeerTx>, k: nat)
    requires b.HasCodes() && n <= Stop(b.entries) && k in NewRows(b, t, n, txList)
    ensures NewRows(b, t, n, txList)[k].block == b.number
  {
    if n > 0 && k in NewRows(b, t, n - 1, txList) {
      RowNamesItsBlock(b, t, n - 1, txList, k);
    }
  }

  /** Of the first n positions the last one that finds its transaction in the list. */
  ghost function LastHit(b: Block, txList: map<TxId, PeerTx>, n: nat): (r: Option<nat>)
    ensures match r
            case None => NoHit(b, txList, 0, n)
            case Some(j) => j < n && Hit(b, txList, j) && NoHit(b, txList, j + 1, n)
  {
    if n == 0 then None
    else if Hit(b, txList, n - 1) then Some(n - 1)
    else LastHit(b, txList, n - 1)
  }

  /** The row of position i, attributed with the given list. */
  ghost function RowUnder(b: Block, txList: map<TxId, PeerTx>, i: nat): TxRow
    requires b.HasCodes() && IsRow(b, i)
  {
    match LastHit(b, txList, i + 1)
    case None => RowOf(b, i, DEFAULT_PEER, 0)
    case Some(j) => RowOf(b, i, txList[b.entries[j].id].peerName, txList[b.entries[j].id].peerType)
  }

  ghost function TypeUnder(b: Block, txList: map<TxId, PeerTx>): int {
    match LastHit(b, txList, Stop(b.entries))
    case None => 0
    case Some(j) => BlockType(txList[b.entries[j].id].peerType)
  }

  lemma RowsOfAt(t: int, b: Block, txList: map<TxId, PeerTx>, i: nat)
    requires b.HasCodes() && SliceSized(b) && IsRow(b, i)
    ensures var k := Index(b.number, t, i);
            k in RowsOf(t, b, txList) && RowsOf(t, b, txList)[k] == RowUnder(b, txList, i)
  {
    KeysOfBlockDiffer(b, t);
    NewRowsAttributed(b, t, Stop(b.entries), txList, i);
  }

  lemma BlockRowIs(t: int, b: Block, alice: string, bob: string, txList: map<TxId, PeerTx>)
    requires b.HasCodes()
    ensures BlockRowOf(t, b, alice, bob, txList) ==
            BlockRow(b.dataHash, |b.entries|, LastTime(b, Stop(b.entries)), alice, bob, TypeUnder(b, txList))
  {
    var w := Work(txList, map[], START);
    AfterCarriesLastTime(b, t, Stop(b.entries), w);
    AfterCarriesLastHit(b, t, Stop(b.entries), w);
    CarriedType(b, txList, Stop(b.entries), After(b, t, Stop(b.entries), w).carry);
  }

  lemma CarriedType(b: Block, txList: map<TxId, PeerTx>, n: nat, carry: Carry)
    requires n <= Stop(b.entries) && CarriesLastHit(b, txList, n, carry)
    ensures carry.peerType == match LastHit(b, txList, n)
                              case None => 0
                              case Some(j) => txList[b.entries[j].id].peerType
  {
    var hit := LastHit(b, txList, n);
    if hit.Some? {
      assert Hit(b, txList, hit.value) && NoHit(b, txList, hit.value + 1, n);
    }
  }

  ghost predicate EqualOutside<K, V>(m: map<K, V>, m': map<K, V>, taken: set<K>) {
    forall k | k in m && k in m' && k !in taken :: m[k] == m'[k]
  }

  /** Each new row of the block shows the same under either list. */
  ghost predicate RowsAlike(t: int, b: Block, l: map<TxId, PeerTx>, l': map<TxId, PeerTx>, taken: set<nat>)
    requires b.HasCodes()
  {
    forall i | IsRow(b, i) && Index(b.number, t, i) !in taken :: RowUnder(b, l, i) == RowUnder(b, l', i)
  }

  lemma RowsAlikeIff(t: int, b: Block, l: map<TxId, PeerTx>, l': map<TxId, PeerTx>, taken: set<nat>)
    requires b.HasCodes() && SliceSized(b)
    ensures EqualOutside(RowsOf(t, b, l), RowsOf(t, b, l'), taken) <==> RowsAlike(t, b, l, l', taken)
  {
    forall i | IsRow(b, i)
      ensures Index(b.number, t, i) in RowsOf(t, b, l) && Index(b.number, t, i) in RowsOf(t, b, l')
      ensures RowsOf(t, b, l)[Index(b.number, t, i)] == RowUnder(b, l, i)
      ensures RowsOf(t, b, l')[Index(b.number, t, i)] == RowUnder(b, l', i)
    {
      RowsOfAt(t, b, l, i);
      RowsOfAt(t, b, l', i);
    }
    NewRowsKeys(b, t, Stop(b.entries), l);
  }

  /** Both orders of two batches of rows under `rest`, when the second batch may come out differently. */
  lemma MergesAgreeIff<K, V>(a: map<K, V>, a': map<K, V>, b: map<K, V>, b': map<K, V>, rest: map<K, V>)
    requires a.Keys == a'.Keys && b.Keys == b'.Keys
    requires forall k | k in a && k in b :: a[k] != b[k]
    ensures b' + (a + rest) == a' + (b + rest) <==>
            a.Keys * b.Keys <= rest.Keys && EqualOutside(a, a', rest.Keys) && EqualOutside(b, b', rest.Keys)
  {
    var x, y := b' + (a + rest), a' + (b + rest);
    assert x.Keys == y.Keys;
    if x == y {
      forall k | k in a && k !in rest
        ensures k !in b && a[k] == a'[k]
      {
        assert x[k] == y[k];
      }
      forall k | k in b && k !in rest
        ensures b[k] == b'[k]
      {
        assert x[k] == y[k];
      }
    } else {
      var k :| k in x && x[k] != y[k];
    }
  }

  lemma InsertsAgreeIff<K, V>(m: map<K, V>, j: K, v: V, v': V, k: K, u: V, u': V)
    requires j != k
    ensures Insert(Insert(m, j, v), k, u') == Insert(Insert(m, k, u), j, v') <==>
            (j in m || v == v') && (k in m || u == u')
  {
    var x, y := Insert(Insert(m, j, v), k, u'), Insert(Insert(m, k, u), j, v');
    assert x.Keys == y.Keys;
    if (j in m || v == v') && (k in m || u == u') {
      assert forall i <- x :: x[i] == y[i];
    } else {
      assert x[j] != y[j] || x[k] != y[k];
    }
  }

  /**
   The order of two blocks stays out of the transaction table: no free key is claimed by both, and
   no new row of one is attributed differently once the other has taken its transactions.
   */
  ghost predicate RowsHideOrder(t: int, a: Block, b: Block, s: Tables)
    requires a.HasCodes() && b.HasCodes()
  {
    && AllIndexes(a, t) * AllIndexes(b, t) <= s.txs.Keys
    && RowsAlike(t, a, s.txList, s.txList - AllIds(b), s.txs.Keys)
    && RowsAlike(t, b, s.txList, s.txList - AllIds(a), s.txs.Keys)
  }

  /** The same for the type in the block table. */
  ghost predicate TypesHideOrder(a: Block, b: Block, s: Tables) {
    && (a.number in s.blocks || TypeUnder(a, s.txList) == TypeUnder(a, s.txList - AllIds(b)))
    && (b.number in s.blocks || TypeUnder(b, s.txList) == TypeUnder(b, s.txList - AllIds(a)))
  }

  /** The order of two blocks shows in the transaction table for two reasons and no other. */
  lemma RowsCommuteIff(
    t: int, a: Block, alice: string, bob: string, b: Block, alice': string, bob': string, s: Tables)
    requires a.Valid() && b.Valid() && a.number != b.number && a.number != 0 && b.number != 0
    requires SliceSized(a) && SliceSized(b)
    ensures Update(t, b, alice', bob', Update(t, a, alice, bob, s)).txs ==
            Update(t, a, alice, bob, Update(t, b, alice', bob', s)).txs
            <==> RowsHideOrder(t, a, b, s)
  {
    var la, lb := s.txList - AllIds(a), s.txList - AllIds(b);
    UpdateByEffect(t, a, alice, bob, s);
    UpdateByEffect(t, b, alice', bob', s);
    UpdateByEffect(t, b, alice', bob', Update(t, a, alice, bob, s));
    UpdateByEffect(t, a, alice, bob, Update(t, b, alice', bob', s));
    var ra, rb := RowsOf(t, a, s.txList), RowsOf(t, b, s.txList);
    forall k | k in ra && k in rb
      ensures ra[k] != rb[k]
    {
      RowNamesItsBlock(a, t, Stop(a.entries), s.txList, k);
      RowNamesItsBlock(b, t, Stop(b.entries), s.txList, k);
    }
    MergesAgreeIff(ra, RowsOf(t, a, lb), rb, RowsOf(t, b, la), s.txs);
    RowsAlikeIff(t, a, s.txList, lb, s.txs.Keys);
    RowsAlikeIff(t, b, s.txList, la, s.txs.Keys);
  }

  /** Exactly when two updates commute on everything they write. */
  lemma UpdatesCommuteIff(
    t: int, a: Block, alice: string, bob: string, b: Block, alice': string, bob': string, s: Tables)
    requires a.Valid() && b.Valid() && a.number != b.number && SliceSized(a) && SliceSized(b)
    ensures Update(t, b, alice', bob', Update(t, a, alice, bob, s)) ==
            Update(t, a, alice, bob, Update(t, b, alice', bob', s))
            <==> a.number == 0 || b.number == 0 || (RowsHideOrder(t, a, b, s) && TypesHideOrder(a, b, s))
  {
    if a.number != 0 && b.number != 0 {
      var la, lb := s.txList - AllIds(a), s.txList - AllIds(b);
      RowsCommuteIff(t, a, alice, bob, b, alice', bob', s);
      UpdateByEffect(t, a, alice, bob, s);
      UpdateByEffect(t, b, alice', bob', s);
      UpdateByEffect(t, b, alice', bob', Update(t, a, alice, bob, s));
      UpdateByEffect(t, a, alice, bob, Update(t, b, alice', bob', s));
      InsertsAgreeIff<nat, BlockRow>(
        s.blocks,
        a.number, BlockRowOf(t, a, alice, bob, s.txList), BlockRowOf(t, a, alice, bob, lb),
        b.number, BlockRowOf(t, b, alice', bob', s.txList), BlockRowOf(t, b, alice', bob', la));
      BlockRowIs(t, a, alice, bob, s.txList);
      BlockRowIs(t, a, alice, bob, lb);
      BlockRowIs(t, b, alice', bob', s.txList);
      BlockRowIs(t, b, alice', bob', la);
      MinusSwaps(s.txList, AllIds(a), AllIds(b));
    }
  }

  /** Two blocks, one larger than txNumPerBlock: which of them comes first decides the row at the shared key. */
  lemma OversizedBlockMakesOrderShow()
    ensures var time := Time(0, 0);
            var a := Block(1, [], [Tx([1], time), Tx([2], time)], [0, 0]);
            var b := Block(2, [], [Tx([3], time)], [0]);
            var s := Tables(map[], map[], map[]);
            && ShareNoAwaited(s.txList, a, b)
            && Update(1, b, "", "", Update(1, a, "", "", s)).txs != Update(1, a, "", "", Update(1, b, "", "", s)).txs
  {
    var time := Time(0, 0);
    var a := Block(1, [], [Tx([1], time), Tx([2], time)], [0, 0]);
    var b := Block(2, [], [Tx([3], time)], [0]);
    StopIs(a.entries, 2);
    StopIs(b.entries, 1);
    RowsCommuteIff(1, a, "", "", b, "", "", Tables(map[], map[], map[]));
    assert Index(1, 1, 1) == 2 && Index(2, 1, 0) == 2;
    assert IsRow(a, 1) && IsRow(b, 0);
    assert Index(a.number, 1, 1) in AllIndexes(a, 1) && Index(b.number, 1, 0) in AllIndexes(b, 1);
    assert 2 in AllIndexes(a, 1) * AllIndexes(b, 1);
  }

  /** Two blocks with row keys of their own that carry the same awaited transaction: the first one takes it. */
  lemma SharedTransactionMakesOrderShow(tx: PeerTx)
    requires tx.peerName != DEFAULT_PEER
    ensures var time := Time(0, 0);
            var a := Block(1, [], [Tx([1], time)], [0]);
            var b := Block(2, [], [Tx([1], time)], [0]);
            var s := Tables(map[[1] := tx], map[], map[]);
            && AllIndexes(a, 1) !! AllIndexes(b, 1)
            && Update(1, b, "", "", Update(1, a, "", "", s)).txs != Update(1, a, "", "", Update(1, b, "", "", s)).txs
  {
    var time := Time(0, 0);
    var a := Block(1, [], [Tx([1], time)], [0]);
    var b := Block(2, [], [Tx([1], time)], [0]);
    var s := Tables(map[[1] := tx], map[], map[]);
    StopIs(a.entries, 1);
    StopIs(b.entries, 1);
    RowsCommuteIff(1, a, "", "", b, "", "", s);
    assert IsRow(a, 0) && Index(a.number, 1, 0) == 1 && Index(b.number, 1, 0) == 2;
    assert b.entries[0].id in AllIds(b);
    assert Hit(a, s.txList, 0) && !Hit(a, s.txList - AllIds(b), 0);
    assert LastHit(a, s.txList, 1) == Some(0) && LastHit(a, s.txList - AllIds(b), 1) == None;
    assert RowUnder(a, s.txList, 0) != RowUnder(a, s.txList - AllIds(b), 0);
  }
}
