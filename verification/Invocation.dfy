/** Invoking the chaincode: InvokeCC in server/fabsdk.go, with GetTable of server/statistics.go. */
module Invocation {
  import opened Wrappers
  import opened Wire
  import opened Strconv
  import opened MapSum
  import opened TxList
  import TxUtils
  import TokenContract

  // ----- partition of the peers -----

  /** The slices k[9:10] and k[9:11] taken of a peer name are within it. */
  predicate Sliceable(k: string) {
    |k| >= 10 && (Atoi(k[9..10]).value == 1 ==> |k| >= 11)
  }

  function OrgIndex(k: string): int
    requires Sliceable(k)
  {
    var digit := Atoi(k[9..10]).value;
    if digit == 1 && Atoi(k[9..11]).ok then Atoi(k[9..11]).value - 1 else digit - 1
  }

  predicate NoDups<T(==)>(s: seq<T>) {
    forall i, j | 0 <= i < j < |s| :: s[i] != s[j]
  }

  /** An order in which `range` may walk a map with these keys. */
  ghost predicate Enumerates(order: seq<string>, keys: set<string>) {
    NoDups(order) && forall k :: k in order <==> k in keys
  }

  /** The organisation indexes of the peers with status `normal`, in iteration order. */
  function Indexes(order: seq<string>, peers: map<string, bool>, normal: bool): seq<int>
    requires forall k <- order :: k in peers && Sliceable(k)
  {
    if order == [] then []
    else
      var k := order[|order| - 1];
      Indexes(order[..|order| - 1], peers, normal) + if peers[k] == normal then [OrgIndex(k)] else []
  }

  method PartitionPeers(peers: map<string, bool>)
    returns (nPeers: seq<int>, bPeers: seq<int>, ghost order: seq<string>)
    requires forall k <- peers :: Sliceable(k)
    ensures Enumerates(order, peers.Keys)
    ensures nPeers == Indexes(order, peers, true) && bPeers == Indexes(order, peers, false)
  {
    nPeers, bPeers, order := [], [], [];
    var todo := peers.Keys;
    while todo != {}
      invariant todo <= peers.Keys && Enumerates(order, peers.Keys - todo)
      invariant nPeers == Indexes(order, peers, true) && bPeers == Indexes(order, peers, false)
      decreases todo
    {
      var k :| k in todo;
      var index := Atoi(k[9..10]).value;
      if index == 1 {
        var two := Atoi(k[9..11]);
        if two.ok {
          index := two.value;
        }
      }
      index := index - 1;
      if peers[k] {
        nPeers := nPeers + [index];
      } else {
        bPeers := bPeers + [index];
      }
      assert (order + [k])[..|order|] == order;
      order := order + [k];
      todo := todo - {k};
    }
  }

  // ----- targets -----

  /** The organisations whose first peer gets the proposal. */
  function Targets(nPeers: seq<int>, bPeers: seq<int>, orgs: nat): seq<int> {
    if |nPeers| >= 7 then nPeers
    else if |bPeers| >= 7 then bPeers
    else seq(orgs, i => i)
  }

  method ChooseTargets(nPeers: seq<int>, bPeers: seq<int>, orgs: nat) returns (targets: array<int>)
    ensures fresh(targets) && targets[..] == Targets(nPeers, bPeers, orgs)
  {
    if |nPeers| >= 7 {
      targets := new int[|nPeers|];
      for k := 0 to |nPeers|
        invariant targets[..k] == nPeers[..k]
      {
        targets[k] := nPeers[k];
      }
    } else if |bPeers| >= 7 {
      targets := new int[|bPeers|];
      for k := 0 to |bPeers|
        invariant targets[..k] == bPeers[..k]
      {
        targets[k] := bPeers[k];
      }
    } else {
      targets := new int[orgs];
      for k := 0 to orgs
        invariant forall i | 0 <= i < k :: targets[i] == i
      {
        targets[k] := k;
      }
    }
  }

  lemma {:induction false} IndexMembers(order: seq<string>, peers: map<string, bool>, normal: bool, x: int)
    requires forall k <- order :: k in peers && Sliceable(k)
    ensures x in Indexes(order, peers, normal) <==>
            exists k <- order :: peers[k] == normal && OrgIndex(k) == x
  {
    if order != [] {
      var front, k := order[..|order| - 1], order[|order| - 1];
      IndexMembers(front, peers, normal, x);
      assert order == front + [k];
    }
  }

  ghost function Having(order: seq<string>, peers: map<string, bool>, normal: bool): set<string> {
    set k | k in order && k in peers && peers[k] == normal
  }

  lemma HavingOneMore(front: seq<string>, k: string, peers: map<string, bool>, normal: bool)
    requires k in peers && k !in front
    ensures |Having(front + [k], peers, normal)| ==
            |Having(front, peers, normal)| + if peers[k] == normal then 1 else 0
  {
    assert Having(front + [k], peers, normal) == Having(front, peers, normal) + if peers[k] == normal then {k} else {};
  }

  /** How many peers have a status does not depend on the order they are walked in. */
  lemma {:induction false} IndexCount(order: seq<string>, peers: map<string, bool>, normal: bool)
    requires forall k <- order :: k in peers && Sliceable(k)
    requires NoDups(order)
    ensures |Indexes(order, peers, normal)| == |Having(order, peers, normal)|
  {
    if order != [] {
      var front, k := order[..|order| - 1], order[|order| - 1];
      IndexCount(front, peers, normal);
      assert order == front + [k];
      HavingOneMore(front, k, peers, normal);
    }
  }

  lemma {:induction false} IndexesDiffer(order: seq<string>, peers: map<string, bool>, normal: bool)
    requires forall k <- order :: k in peers && Sliceable(k)
    requires NoDups(order)
    requires forall j, k | j in order && k in order && j != k :: OrgIndex(j) != OrgIndex(k)
    ensures NoDups(Indexes(order, peers, normal))
  {
    if order != [] {
      var front, k := order[..|order| - 1], order[|order| - 1];
      assert order == front + [k];
      IndexesDiffer(front, peers, normal);
      IndexMembers(front, peers, normal, OrgIndex(k));
    }
  }

  // ----- ten organisations -----

  const TEN: set<int> := set i | 0 <= i < 10

  lemma TenIsTen()
    ensures |TEN| == 10
  {
    assert TEN == {0, 1, 2, 3, 4, 5, 6, 7, 8, 9};
  }

  lemma OrgIndexOfName(i: nat)
    requires i < 10
    ensures Sliceable(TokenContract.PEER_NAMES[i]) && OrgIndex(TokenContract.PEER_NAMES[i]) == i
  {
    var name := TokenContract.PEER_NAMES[i];
    assert name[9..10] == [name[9]] && name[9..11] == [name[9], name[10]];
    AtoiOfOne(name[9]);
    AtoiOfTwo(name[9], name[10]);
  }

  lemma TenPeersSliceable(order: seq<string>, peers: map<string, bool>)
    requires peers.Keys == TokenContract.PEERS && Enumerates(order, peers.Keys)
    ensures forall k <- order :: k in peers && Sliceable(k) && 0 <= OrgIndex(k) < 10 &&
                                 k == TokenContract.PEER_NAMES[OrgIndex(k)]
  {
    forall k | k in order
      ensures k in peers && Sliceable(k) && 0 <= OrgIndex(k) < 10 && k == TokenContract.PEER_NAMES[OrgIndex(k)]
    {
      assert k in peers.Keys;
      var i :| 0 <= i < 10 && TokenContract.PEER_NAMES[i] == k;
      OrgIndexOfName(i);
    }
  }

  /** The organisations whose peer has status `normal`. */
  ghost function OrgsWith(peers: map<string, bool>, normal: bool): set<int>
    requires peers.Keys == TokenContract.PEERS
  {
    set i | 0 <= i < 10 && peers[TokenContract.PEER_NAMES[i]] == normal
  }

  lemma {:induction false} CardinalityOfNoDups<T>(s: seq<T>)
    requires NoDups(s)
    ensures |set x | x in s| == |s|
  {
    if s != [] {
      var front, x := s[..|s| - 1], s[|s| - 1];
      CardinalityOfNoDups(front);
      assert s == front + [x];
      assert (set y | y in s) == (set y | y in front) + {x};
    }
  }

  /** Whatever the order, the loop files each organisation once, under the status of its peer. */
  lemma PartitionIsSound(order: seq<string>, peers: map<string, bool>, normal: bool)
    requires peers.Keys == TokenContract.PEERS && Enumerates(order, peers.Keys)
    ensures forall k <- order :: k in peers && Sliceable(k)
    ensures var s := Indexes(order, peers, normal);
            && NoDups(s)
            && (set x | x in s) == OrgsWith(peers, normal)
            && |s| == |OrgsWith(peers, normal)|
  {
    TenPeersSliceable(order, peers);
    IndexesDiffer(order, peers, normal);
    var s := Indexes(order, peers, normal);
    forall x
      ensures x in s <==> x in OrgsWith(peers, normal)
    {
      IndexMembers(order, peers, normal, x);
      if x in OrgsWith(peers, normal) {
        OrgIndexOfName(x);
        assert TokenContract.PEER_NAMES[x] in peers.Keys;
      }
    }
    CardinalityOfNoDups(s);
  }

  /** The target set as a function of the peers alone. */
  ghost function TargetSet(peers: map<string, bool>): set<int>
    requires peers.Keys == TokenContract.PEERS || peers == map[]
  {
    if peers == map[] then TEN
    else if |OrgsWith(peers, true)| >= 7 then OrgsWith(peers, true)
    else if |OrgsWith(peers, false)| >= 7 then OrgsWith(peers, false)
    else TEN
  }

  /** The answer of getPeers, or nothing when the query fails. */
  predicate PeersReply(peers: map<string, bool>) {
    peers.Keys == TokenContract.PEERS || peers == map[]
  }

  lemma TargetsAreSound(order: seq<string>, peers: map<string, bool>)
    requires PeersReply(peers) && Enumerates(order, peers.Keys)
    ensures forall k <- order :: k in peers && Sliceable(k)
    ensures var targets := Targets(Indexes(order, peers, true), Indexes(order, peers, false), 10);
            && NoDups(targets)
            && (set x | x in targets) == TargetSet(peers) <= TEN
            && |targets| == |TargetSet(peers)| >= 7
  {
    TenIsTen();
    var all := seq(10, i => i);
    CardinalityOfNoDups(all);
    forall x
      ensures x in all <==> x in TEN
    {
      if x in TEN {
        assert all[x] == x;
      }
    }
    if peers != map[] {
      PartitionIsSound(order, peers, true);
      PartitionIsSound(order, peers, false);
    }
  }

  lemma SubsetCardinality<T>(a: set<T>, b: set<T>)
    requires a <= b
    ensures |a| <= |b|
  {
    assert b == a + (b - a);
  }

  lemma TargetsOverlap(p: map<string, bool>, q: map<string, bool>)
    requires PeersReply(p) && PeersReply(q)
    ensures |TargetSet(p) * TargetSet(q)| >= 4
  {
    TenIsTen();
    var a, b := TargetSet(p), TargetSet(q);
    SubsetCardinality(a + b, TEN);
    assert |a + b| + |a * b| == |a| + |b|;
  }

  /** A target set is of one kind, or it is all organisations because no kind has seven. */
  lemma TargetsAreOfOneKind(peers: map<string, bool>)
    requires peers.Keys == TokenContract.PEERS
    ensures |OrgsWith(peers, true)| + |OrgsWith(peers, false)| == 10
    ensures TargetSet(peers) == if |OrgsWith(peers, false)| <= 3 then OrgsWith(peers, true)
                                else if |OrgsWith(peers, false)| >= 7 then OrgsWith(peers, false)
                                else TEN
  {
    TenIsTen();
    var a, b := OrgsWith(peers, true), OrgsWith(peers, false);
    assert a + b == TEN && a * b == {};
    assert |a + b| + |a * b| == |a| + |b|;
  }

  // ----- statistics -----

  datatype Row = Row(byzantinePeers: int, normalTx: nat, normalCommit: nat, byzantineTx: nat, byzantineCommit: nat)

  function ToInt8(n: int): int {
    (n + 128) % 256 - 128
  }

  /** The conversion keeps the lowest eight bits. */
  lemma Int8Keeps(n: int)
    ensures -128 <= ToInt8(n) < 128 && (n - ToInt8(n)) % 256 == 0
    ensures -128 <= n < 128 ==> ToInt8(n) == n
  {
    assert n - ToInt8(n) == (n + 128) / 256 * 256;
  }

  class Statistics {
    var byzantinePeers: int
    var normalTx: nat
    var normalCommit: nat
    var byzantineTx: nat
    var byzantineCommit: nat

    function Value(): Row
      reads this
    {
      Row(byzantinePeers, normalTx, normalCommit, byzantineTx, byzantineCommit)
    }

    constructor (num: int)
      ensures Value() == Row(num, 0, 0, 0, 0)
    {
      byzantinePeers := num;
      normalTx, normalCommit, byzantineTx, byzantineCommit := 0, 0, 0, 0;
    }

    method AddFailed(peerType: int, ghost byzantine: nat)
      modifies this
      ensures Value() == Recorded(old(Value()), peerType, byzantine, false)
    {
      if peerType == 0 {
        normalTx := normalTx + 1;
      } else {
        byzantineTx := byzantineTx + 1;
      }
    }

    method AddExecuted(peerType: int, byzantine: nat)
      modifies this
      ensures Value() == Recorded(old(Value()), peerType, byzantine, true)
    {
      if peerType == 0 {
        normalTx := normalTx + 1;
        normalCommit := normalCommit + 1;
      } else {
        byzantineTx := byzantineTx + 1;
        if byzantine >= 7 {
          byzantineCommit := byzantineCommit + 1;
        }
      }
    }
  }

  lemma IsUpdate(rows: map<int, Row>, rows': map<int, Row>, num: int)
    requires rows'.Keys == rows.Keys + {num}
    requires forall k | k in rows && k != num :: rows'[k] == rows[k]
    ensures rows' == rows[num := rows'[num]]
  {
    var updated := rows[num := rows'[num]];
    assert updated.Keys == rows'.Keys;
    assert forall k <- updated :: updated[k] == rows'[k];
  }

  /**
   One call of InvokeCC: its arguments, the nonce and creator when the steps up to the transaction
   id succeed, the peers getPeers answered, and whether Execute succeeded.
   */
  datatype Invoke = Invoke(
    peer: string, peerType: int, fn: string, identity: Option<(Bytes, Bytes)>,
    peers: map<string, bool>, executed: bool)
  {
    /** The call changes the statistics. */
    predicate Counts() {
      identity.Some? && fn == "transfer"
    }
  }

  ghost function ByzantineCount(peers: map<string, bool>): nat {
    |set k | k in peers && !peers[k]|
  }

  lemma ByzantineInAnyOrder(order: seq<string>, peers: map<string, bool>)
    requires Enumerates(order, peers.Keys) && forall k <- peers :: Sliceable(k)
    ensures |Indexes(order, peers, false)| == ByzantineCount(peers)
  {
    IndexCount(order, peers, false);
    assert Having(order, peers, false) == set k | k in peers && !peers[k];
  }

  function Recorded(row: Row, peerType: int, byzantine: nat, executed: bool): Row {
    if peerType == 0 then
      row.(normalTx := row.normalTx + 1, normalCommit := row.normalCommit + if executed then 1 else 0)
    else
      row.(byzantineTx := row.byzantineTx + 1,
           byzantineCommit := row.byzantineCommit + if executed && byzantine >= 7 then 1 else 0)
  }

  function RowAt(rows: map<int, Row>, num: int): Row {
    if num in rows then rows[num] else Row(num, 0, 0, 0, 0)
  }

  datatype State = State(txList: map<TxId, PeerTx>, rows: map<int, Row>)

  ghost function Stored(digest: TxUtils.Digest, txList: map<TxId, PeerTx>, inv: Invoke): map<TxId, PeerTx>
    requires inv.identity.Some?
  {
    var txid := TxUtils.ComputeTxID(digest, inv.identity.value.0, inv.identity.value.1);
    txList[txid := PeerTx(inv.peer, if inv.peerType == 1 then ByzantineCount(inv.peers) else inv.peerType)]
  }

  ghost function Counted(rows: map<int, Row>, inv: Invoke): map<int, Row> {
    var byzantine := ByzantineCount(inv.peers);
    var num := ToInt8(byzantine);
    rows[num := Recorded(RowAt(rows, num), inv.peerType, byzantine, inv.executed)]
  }

  ghost function Step(digest: TxUtils.Digest, s: State, inv: Invoke): State {
    if inv.identity.None? then s
    else State(Stored(digest, s.txList, inv), if inv.Counts() then Counted(s.rows, inv) else s.rows)
  }

  class FabSdkProvider {
    const orgs: nat
    const digest: TxUtils.Digest
    const txList: SyncMap
    var statisticsTable: map<int, Statistics>

    /** No two keys share their counters. */
    ghost predicate Valid()
      reads this
    {
      forall j, k | j in statisticsTable && k in statisticsTable && j != k :: statisticsTable[j] != statisticsTable[k]
    }

    ghost function Rows(): map<int, Row>
      reads this, statisticsTable.Values
    {
      map k | k in statisticsTable :: statisticsTable[k].Value()
    }

    ghost function Abstract(): State
      reads this, txList, statisticsTable.Values
    {
      State(txList.entries, Rows())
    }

    constructor (orgs: nat, digest: TxUtils.Digest, txList: SyncMap)
      ensures this.orgs == orgs && this.digest == digest && this.txList == txList
      ensures Valid() && statisticsTable == map[]
    {
      this.orgs, this.digest, this.txList := orgs, digest, txList;
      statisticsTable := map[];
    }

    method GetTable(num: int) returns (t: Statistics)
      ensures if num in statisticsTable then t == statisticsTable[num]
              else fresh(t) && t.Value() == Row(num, 0, 0, 0, 0)
    {
      if num in statisticsTable {
        return statisticsTable[num];
      }
      t := new Statistics(num);
    }

    /** The targets come back as organisation indexes; an index outside f.Orgs would be a panic. */
    method InvokeCC(inv: Invoke) returns (targets: seq<int>, ghost order: seq<string>)
      requires Valid()
      requires forall k <- inv.peers :: Sliceable(k) && 0 <= OrgIndex(k) < orgs
      modifies this`statisticsTable, statisticsTable.Values, txList
      ensures Valid() && fresh(statisticsTable.Values - old(statisticsTable.Values))
      ensures Abstract() == Step(digest, old(Abstract()), inv)
      ensures inv.identity.Some? ==>
                && Enumerates(order, inv.peers.Keys)
                && targets == Targets(Indexes(order, inv.peers, true), Indexes(order, inv.peers, false), orgs)
    {
      targets, order := [], [];
      if inv.identity.None? {
        return;
      }
      var byzantine;
      targets, byzantine, order := Submit(inv);
      if inv.fn == "transfer" {
        if !inv.executed {
          CountFailed(ToInt8(byzantine), inv.peerType, byzantine);
        } else {
          CountExecuted(ToInt8(byzantine), inv.peerType, byzantine);
        }
      }
    }

    /** Queries the peers, records the transaction for the indexer and chooses the targets. */
    method Submit(inv: Invoke) returns (targets: seq<int>, byzantine: nat, ghost order: seq<string>)
      requires inv.identity.Some?
      requires forall k <- inv.peers :: Sliceable(k) && 0 <= OrgIndex(k) < orgs
      modifies txList
      ensures byzantine == ByzantineCount(inv.peers)
      ensures txList.entries == Stored(digest, old(txList.entries), inv)
      ensures Enumerates(order, inv.peers.Keys)
      ensures targets == Targets(Indexes(order, inv.peers, true), Indexes(order, inv.peers, false), orgs)
    {
      var (nonce, creator) := inv.identity.value;
      var txid := TxUtils.ComputeTxID(digest, nonce, creator);
      var nPeers, bPeers;
      nPeers, bPeers, order := PartitionPeers(inv.peers);
      ByzantineInAnyOrder(order, inv.peers);
      if inv.peerType == 1 {
        txList.Store(txid, PeerTx(inv.peer, |bPeers|));
      } else {
        txList.Store(txid, PeerTx(inv.peer, inv.peerType));
      }
      var chosen := ChooseTargets(nPeers, bPeers, orgs);
      targets, byzantine := chosen[..], |bPeers|;
    }

    method CountFailed(num: int, peerType: int, ghost byzantine: nat)
      requires Valid()
      modifies this`statisticsTable, statisticsTable.Values
      ensures Valid() && fresh(statisticsTable.Values - old(statisticsTable.Values))
      ensures Rows() == old(Rows())[num := Recorded(RowAt(old(Rows()), num), peerType, byzantine, false)]
    {
      ghost var rows := Rows();
      var t := GetTable(num);
      assert t.Value() == RowAt(rows, num);
      t.AddFailed(peerType, byzantine);
      statisticsTable := statisticsTable[num := t];
      IsUpdate(rows, Rows(), num);
    }

    method CountExecuted(num: int, peerType: int, byzantine: nat)
      requires Valid()
      modifies this`statisticsTable, statisticsTable.Values
      ensures Valid() && fresh(statisticsTable.Values - old(statisticsTable.Values))
      ensures Rows() == old(Rows())[num := Recorded(RowAt(old(Rows()), num), peerType, byzantine, true)]
    {
      ghost var rows := Rows();
      var t := GetTable(num);
      assert t.Value() == RowAt(rows, num);
      t.AddExecuted(peerType, byzantine);
      statisticsTable := statisticsTable[num := t];
      IsUpdate(rows, Rows(), num);
    }
  }

  // ----- runs -----

  ghost function Run(digest: TxUtils.Digest, s: State, invs: seq<Invoke>): State {
    if invs == [] then s else Step(digest, Run(digest, s, invs[..|invs| - 1]), invs[|invs| - 1])
  }

  ghost function Count(invs: seq<Invoke>, p: Invoke -> bool): nat {
    if invs == [] then 0 else Count(invs[..|invs| - 1], p) + if p(invs[|invs| - 1]) then 1 else 0
  }

  /** A transfer that reached Execute while `num` peers, as an int8, were byzantine. */
  ghost predicate AtKey(inv: Invoke, num: int) {
    inv.identity.Some? && inv.fn == "transfer" && ToInt8(ByzantineCount(inv.peers)) == num
  }

  ghost function Kind(num: int, normal: bool): Invoke -> bool {
    inv => AtKey(inv, num) && (inv.peerType == 0) == normal
  }

  ghost function Committed(num: int, normal: bool): Invoke -> bool {
    inv => AtKey(inv, num) && (inv.peerType == 0) == normal && inv.executed &&
           (normal || ByzantineCount(inv.peers) >= 7)
  }

  /** The row a history deserves: every counter counts the calls of its kind. */
  ghost function Tally(invs: seq<Invoke>, num: int): Row {
    Row(num, Count(invs, Kind(num, true)), Count(invs, Committed(num, true)),
        Count(invs, Kind(num, false)), Count(invs, Committed(num, false)))
  }

  lemma TallyOneMore(front: seq<Invoke>, inv: Invoke, num: int)
    ensures Tally(front + [inv], num) ==
            if AtKey(inv, num) then Recorded(Tally(front, num), inv.peerType, ByzantineCount(inv.peers), inv.executed)
            else Tally(front, num)
  {
    var invs := front + [inv];
    assert invs[..|invs| - 1] == front;
  }

  lemma {:induction false} RowsAreTallies(
    digest: TxUtils.Digest, txList: map<TxId, PeerTx>, invs: seq<Invoke>, num: int)
    ensures var rows := Run(digest, State(txList, map[]), invs).rows;
            && RowAt(rows, num) == Tally(invs, num)
            && (num in rows <==> exists inv <- invs :: AtKey(inv, num))
  {
    if invs != [] {
      var front, inv := invs[..|invs| - 1], invs[|invs| - 1];
      assert invs == front + [inv];
      RowsAreTallies(digest, txList, front, num);
      TallyOneMore(front, inv, num);
    }
  }

  /** Neither a call that fails before its transaction id nor one of another function touches the statistics. */
  lemma OnlyTransfersCount(digest: TxUtils.Digest, s: State, inv: Invoke)
    ensures var rows := Step(digest, s, inv).rows;
            if inv.identity.Some? && inv.fn == "transfer"
            then rows.Keys == s.rows.Keys + {ToInt8(ByzantineCount(inv.peers))} && rows != s.rows
            else rows == s.rows
  {
    var num := ToInt8(ByzantineCount(inv.peers));
    assert Recorded(RowAt(s.rows, num), inv.peerType, ByzantineCount(inv.peers), inv.executed) != RowAt(s.rows, num);
  }

  ghost function Transactions(rows: map<int, Row>): map<int, int> {
    map k | k in rows :: rows[k].normalTx + rows[k].byzantineTx
  }

  lemma StepAddsTransaction(digest: TxUtils.Digest, s: State, inv: Invoke)
    ensures Sum(Transactions(Step(digest, s, inv).rows)) ==
            Sum(Transactions(s.rows)) + if inv.identity.Some? && inv.fn == "transfer" then 1 else 0
  {
    if inv.Counts() {
      var num := ToInt8(ByzantineCount(inv.peers));
      var row := Recorded(RowAt(s.rows, num), inv.peerType, ByzantineCount(inv.peers), inv.executed);
      SumUpdate(Transactions(s.rows), num, row.normalTx + row.byzantineTx);
      assert Transactions(s.rows[num := row]) == Transactions(s.rows)[num := row.normalTx + row.byzantineTx];
    }
  }

  /** No transfer that reached Execute is lost or counted twice. */
  lemma {:induction false} StatisticsConserve(digest: TxUtils.Digest, txList: map<TxId, PeerTx>, invs: seq<Invoke>)
    ensures Sum(Transactions(Run(digest, State(txList, map[]), invs).rows)) ==
            Count(invs, (inv: Invoke) => inv.identity.Some? && inv.fn == "transfer")
  {
    if invs != [] {
      var front, inv := invs[..|invs| - 1], invs[|invs| - 1];
      StatisticsConserve(digest, txList, front);
      StepAddsTransaction(digest, Run(digest, State(txList, map[]), front), inv);
    } else {
      assert Transactions(map[]) == map[];
    }
  }

  lemma {:induction false} CountMonotone(invs: seq<Invoke>, p: Invoke -> bool, q: Invoke -> bool)
    requires forall inv <- invs :: p(inv) ==> q(inv)
    ensures Count(invs, p) <= Count(invs, q)
  {
    if invs != [] {
      CountMonotone(invs[..|invs| - 1], p, q);
    }
  }

  lemma {:induction false} CountPositive(invs: seq<Invoke>, p: Invoke -> bool, inv: Invoke)
    requires inv in invs && p(inv)
    ensures Count(invs, p) > 0
  {
    if inv != invs[|invs| - 1] {
      assert invs == invs[..|invs| - 1] + [invs[|invs| - 1]];
      CountPositive(invs[..|invs| - 1], p, inv);
    }
  }

  lemma {:induction false} CountWitness(invs: seq<Invoke>, p: Invoke -> bool) returns (inv: Invoke)
    requires Count(invs, p) > 0
    ensures inv in invs && p(inv)
  {
    inv := invs[|invs| - 1];
    if !p(inv) {
      inv := CountWitness(invs[..|invs| - 1], p);
    }
  }

  lemma ByzantineCountAtMostTen(peers: map<string, bool>)
    requires PeersReply(peers)
    ensures ByzantineCount(peers) <= 10 && ToInt8(ByzantineCount(peers)) == ByzantineCount(peers)
  {
    var byzantine := set k | k in peers && !peers[k];
    SubsetCardinality(byzantine, TokenContract.PEERS);
    DistinctAtMostLength(TokenContract.PEER_NAMES);
  }

  lemma {:induction false} DistinctAtMostLength(s: seq<string>)
    ensures |set x | x in s| <= |s|
  {
    if s != [] {
      DistinctAtMostLength(s[1..]);
      assert (set x | x in s) == {s[0]} + set x | x in s[1..];
    }
  }

  /** The row invariant of every run whose peers come from the chaincode. */
  lemma RowInvariant(digest: TxUtils.Digest, txList: map<TxId, PeerTx>, invs: seq<Invoke>, num: int)
    requires forall inv <- invs :: PeersReply(inv.peers)
    requires num in Run(digest, State(txList, map[]), invs).rows
    ensures var row := Run(digest, State(txList, map[]), invs).rows[num];
            && row.byzantinePeers == num
            && 0 <= num <= 10
            && row.normalCommit <= row.normalTx
            && row.byzantineCommit <= row.byzantineTx
            && (row.byzantineCommit > 0 ==> num >= 7)
            && row.normalTx + row.byzantineTx > 0
  {
    RowsAreTallies(digest, txList, invs, num);
    CountMonotone(invs, Committed(num, true), Kind(num, true));
    CountMonotone(invs, Committed(num, false), Kind(num, false));
    var inv :| inv in invs && AtKey(inv, num);
    ByzantineCountAtMostTen(inv.peers);
    CountPositive(invs, Kind(num, inv.peerType == 0), inv);
    if Count(invs, Committed(num, false)) > 0 {
      var c := CountWitness(invs, Committed(num, false));
      ByzantineCountAtMostTen(c.peers);
    }
  }

  // ----- two invocations in the list -----

  /** What one invocation leaves in the list under its id. */
  ghost predicate Listed(digest: TxUtils.Digest, txList: map<TxId, PeerTx>, inv: Invoke)
    requires inv.identity.Some?
  {
    var txid := TxUtils.ComputeTxID(digest, inv.identity.value.0, inv.identity.value.1);
    && txid in txList
    && txList[txid].peerName == inv.peer
    && txList[txid].peerType == if inv.peerType == 1 then ByzantineCount(inv.peers) else inv.peerType
  }

  /**
   Two invocations keep an entry each, in whatever order they come: of one creator with different nonces
   of one length, or of two creators. The digest must not collide on what they hash.
   */
  lemma InvocationsKeepTheirEntries(digest: TxUtils.Digest, s: State, inv: Invoke, inv': Invoke)
    requires inv.identity.Some? && inv'.identity.Some? && inv.identity != inv'.identity
    requires |inv.identity.value.0| == |inv'.identity.value.0|
    requires TxUtils.NoCollision(digest, inv.identity.value.0 + inv.identity.value.1,
                                 inv'.identity.value.0 + inv'.identity.value.1)
    ensures var l := Step(digest, Step(digest, s, inv), inv').txList;
            Listed(digest, l, inv) && Listed(digest, l, inv')
  {
    TxUtils.TxIDsDiffer(digest, inv.identity.value.0, inv.identity.value.1,
                        inv'.identity.value.0, inv'.identity.value.1);
  }
}
