/** The components together: what the chaincode guarantees to InvokeCC, and InvokeCC to the indexer. */
module System {
  import opened Wrappers
  import opened Wire
  import opened Messages
  import opened Strconv
  import opened TxList
  import T = TxUtils
  import C = TokenContract
  import I = Invocation
  import B = BlockListener
  import L = ListenerRun
  import CatchUp

  // ----- chaincode to invocation -----

  /** The peers map InvokeCC works with: the answer to getPeers for token "fab", empty when the query fails. */
  function PeersSeen(ledger: C.Ledger, queryOk: bool): map<string, bool> {
    match C.Apply(ledger, C.Call("getPeers", ["fab"], None, queryOk, true)).1
    case Ok(Peers(peers)) => peers
    case _ => map[]
  }

  lemma PeersSeenAre(ledger: C.Ledger, queryOk: bool)
    ensures PeersSeen(ledger, queryOk) == if queryOk && "fab" in ledger then ledger["fab"].peers else map[]
  {
  }

  /** Whatever was invoked before, InvokeCC sees the ten peers or none; no index leaves the ten organisations. */
  lemma PeersSeenAreTen(calls: seq<C.Call>, queryOk: bool)
    ensures var peers := PeersSeen(C.Run(map[], calls), queryOk);
            && I.PeersReply(peers)
            && forall k <- peers :: I.Sliceable(k) && 0 <= I.OrgIndex(k) < 10
  {
    C.ReachableTokensAreSound(calls);
    PeersSeenAre(C.Run(map[], calls), queryOk);
    var peers := PeersSeen(C.Run(map[], calls), queryOk);
    forall k | k in peers
      ensures I.Sliceable(k) && 0 <= I.OrgIndex(k) < 10
    {
      assert k in peers.Keys;
      var i :| 0 <= i < 10 && C.PEER_NAMES[i] == k;
      I.OrgIndexOfName(i);
    }
  }

  function Interval(lo: int, hi: int): (r: set<int>)
    requires lo <= hi
    ensures |r| == hi - lo && forall i :: i in r <==> lo <= i < hi
    decreases hi - lo
  {
    if lo == hi then {} else Interval(lo, hi - 1) + {hi - 1}
  }

  lemma ByzantineOrgs(peers: map<string, bool>)
    requires peers.Keys == C.PEERS
    ensures I.ByzantineCount(peers) == |I.OrgsWith(peers, false)|
  {
    forall i, j | 0 <= i < j < 10
      ensures C.PEER_NAMES[i] != C.PEER_NAMES[j]
    {
      C.PeerNamesDiffer(i, j);
    }
    assert I.Enumerates(C.PEER_NAMES, peers.Keys);
    I.PartitionIsSound(C.PEER_NAMES, peers, false);
    forall k | k in peers
      ensures I.Sliceable(k)
    {
      assert k in C.PEER_NAMES;
    }
    I.ByzantineInAnyOrder(C.PEER_NAMES, peers);
  }

  /** The organisations below `normal` are normal, the others byzantine. */
  ghost predicate NormalBelow(peers: map<string, bool>, normal: nat) {
    && peers.Keys == C.PEERS && normal <= 10
    && forall i | 0 <= i < 10 :: C.PEER_NAMES[i] in peers && (peers[C.PEER_NAMES[i]] <==> i < normal)
  }

  lemma SplitOrgs(peers: map<string, bool>, normal: nat)
    requires NormalBelow(peers, normal)
    ensures I.OrgsWith(peers, true) == Interval(0, normal) && I.OrgsWith(peers, false) == Interval(normal, 10)
    ensures peers != map[]
  {
    assert C.PEER_NAMES[0] in peers;
  }

  lemma SplitTargets(peers: map<string, bool>, normal: nat)
    requires NormalBelow(peers, normal)
    ensures I.ByzantineCount(peers) == 10 - normal
    ensures I.TargetSet(peers) ==
            if normal >= 7 then Interval(0, normal) else if normal <= 3 then Interval(normal, 10) else Interval(0, 10)
  {
    ByzantineOrgs(peers);
    SplitOrgs(peers, normal);
    assert I.TEN == Interval(0, 10);
  }

  lemma IssueSplits(ledger: C.Ledger, c: C.Call, normal: nat)
    requires c.fn == "issue" && |c.args| == 4 && c.args[1] == "fab" && c.putOk
    requires var n := Atoi(c.args[3]).value;
             normal == 10 - if n < 0 then 0 else if n > 10 then 10 else n
    ensures "fab" in C.Apply(ledger, c).0 && NormalBelow(C.Apply(ledger, c).0["fab"].peers, normal)
  {
    var peers := C.Apply(ledger, c).0["fab"].peers;
    C.IssuedPeers(ledger, c, 1);
    forall i | 0 <= i < 10
      ensures C.PEER_NAMES[i] in peers && (peers[C.PEER_NAMES[i]] <==> i < normal)
    {
      C.IssuedPeers(ledger, c, i + 1);
    }
  }

  /**
   From the argument of issue to the invocation: with byzantineNum n, kept within 0 and 10, InvokeCC
   counts n byzantine peers, and endorses at the first 10 - n organisations when n is at most 3, at
   the last n when n is at least 7, and at all ten in between.
   */
  lemma IssueDecidesTargets(ledger: C.Ledger, c: C.Call)
    requires c.fn == "issue" && |c.args| == 4 && c.args[1] == "fab" && c.putOk
    ensures var n := Atoi(c.args[3]).value;
            var byzantine := if n < 0 then 0 else if n > 10 then 10 else n;
            var peers := PeersSeen(C.Apply(ledger, c).0, true);
            && I.PeersReply(peers) && I.ByzantineCount(peers) == byzantine
            && I.TargetSet(peers) == if byzantine <= 3 then Interval(0, 10 - byzantine)
                                     else if byzantine >= 7 then Interval(10 - byzantine, 10)
                                     else Interval(0, 10)
  {
    var n := Atoi(c.args[3]).value;
    var normal := 10 - if n < 0 then 0 else if n > 10 then 10 else n;
    IssueSplits(ledger, c, normal);
    PeersSeenAre(C.Apply(ledger, c).0, true);
    SplitTargets(C.Apply(ledger, c).0["fab"].peers, normal);
  }

  /**
   Quorum intersection over all histories: whenever two invocations query their peers, and in
   whatever order they walk them, their targets are at least seven organisations each, enough for
   the endorsement policies OutOf(6) and OutOf(7), and at least four organisations are in both.
   */
  lemma QuorumsIntersect(
    calls: seq<C.Call>, queryOk: bool, order: seq<string>, calls': seq<C.Call>, queryOk': bool, order': seq<string>)
    requires I.Enumerates(order, PeersSeen(C.Run(map[], calls), queryOk).Keys)
    requires I.Enumerates(order', PeersSeen(C.Run(map[], calls'), queryOk').Keys)
    ensures var p, q := PeersSeen(C.Run(map[], calls), queryOk), PeersSeen(C.Run(map[], calls'), queryOk');
            && (forall k <- order :: k in p && I.Sliceable(k))
            && (forall k <- order' :: k in q && I.Sliceable(k))
            && var a := I.Targets(I.Indexes(order, p, true), I.Indexes(order, p, false), 10);
            && var b := I.Targets(I.Indexes(order', q, true), I.Indexes(order', q, false), 10);
            && |set x | x in a| >= 7
            && |set x | x in b| >= 7
            && |(set x | x in a) * (set x | x in b)| >= 4
  {
    var p, q := PeersSeen(C.Run(map[], calls), queryOk), PeersSeen(C.Run(map[], calls'), queryOk');
    PeersSeenAreTen(calls, queryOk);
    PeersSeenAreTen(calls', queryOk');
    I.TargetsAreSound(order, p);
    I.TargetsAreSound(order', q);
    I.TargetsOverlap(p, q);
  }

  // ----- assembled transaction to block entry -----

  /** What updateBlock reads from one element of the block data; None where it would dereference nil. */
  function EntryOf(envBytes: Bytes): Option<B.Entry> {
    match UnmarshalEnvelope(envBytes)
    case None => Some(B.BadEnvelope)
    case Some(env) =>
      match UnmarshalPayload(env.payload.Get())
      case None => Some(B.BadPayload)
      case Some(payl) =>
        var hdr :- payl.header;
        EntryOfHeader(hdr)
  }

  function EntryOfHeader(hdr: Header): Option<B.Entry> {
    var chdr :- UnmarshalChannelHeader(hdr.channelHeader.Get());
    var time := chdr.timestamp;
    Some(B.Tx(chdr.txId, if time.None? then B.Time(0, 0) else B.Time(time.value.seconds, time.value.nanos)))
  }

  /** Which elements end the loop, which are passed over, and which make it dereference nil. */
  lemma EntryKinds(envBytes: Bytes)
    ensures EntryOf(envBytes) == Some(B.BadEnvelope) <==> UnmarshalEnvelope(envBytes).None?
    ensures UnmarshalEnvelope(envBytes).Some? ==>
              var payl := UnmarshalPayload(UnmarshalEnvelope(envBytes).value.payload.Get());
              && (EntryOf(envBytes) == Some(B.BadPayload) <==> payl.None?)
              && (EntryOf(envBytes) == None <==>
                  payl.Some? && (payl.value.header.None? ||
                                 UnmarshalChannelHeader(payl.value.header.value.channelHeader.Get()).None?))
  {
  }

  lemma EntryOfSignedTx(proposal: T.Proposal, signer: T.Signer, resps: seq<T.ProposalResponse>)
    requires T.SignedTx(proposal, signer, resps).Ok?
    ensures UnmarshalHeader(proposal.header.Get()).Some?
    ensures EntryOf(MarshalEnvelope(T.SignedTx(proposal, signer, resps).value)) ==
            EntryOfHeader(UnmarshalHeader(proposal.header.Get()).value.Norm())
  {
    T.OpenSignedTx(proposal, signer, resps, UnmarshalHeader(proposal.header.Get()).value,
                   UnmarshalProposalPayload(proposal.payload.Get()).value);
  }

  /** The indexer reads from an assembled transaction the id and time its proposal was made with. */
  lemma AssembledEntry(txid: Bytes, p: T.ProposalInput, signer: T.Signer, resps: seq<T.ProposalResponse>)
    requires p.Valid()
    requires T.SignedTx(T.CreateProposalWithTxID(txid, p), signer, resps).Ok?
    ensures EntryOf(MarshalEnvelope(T.SignedTx(T.CreateProposalWithTxID(txid, p), signer, resps).value)) ==
            Some(B.Tx(txid, B.Time(p.time.seconds, p.time.nanos)))
  {
    T.ProposalHeaderDecodes(txid, p);
    EntryOfSignedTx(T.CreateProposalWithTxID(txid, p), signer, resps);
  }

  // ----- invocation to row -----

  /**
   From the call to the database: an invocation whose transaction is assembled from the nonce and
   creator it drew, and ordered at position i of block n, appears there under the invoking peer once
   the indexer comes to that block, as invalid exactly when the validation code says so or one to
   three peers were byzantine, and stays there. A byzantine invocation (type 1) is recorded with the
   number of byzantine peers, any other with its own type.
   */
  lemma InvocationReachesItsRow(
    digest: T.Digest, s: I.State, inv: I.Invoke, p: T.ProposalInput, signer: T.Signer, resps: seq<T.ProposalResponse>,
    env: Envelope, txid: TxId, t: int, l: L.State, l1: L.State, steps: seq<L.Step>, s1: L.State, n: nat, i: nat,
    alice: string, bob: string, later: seq<L.Step>)
    requires inv.identity == Some((p.nonce, p.creator)) && p.Valid()
    requires txid == T.ComputeTxID(digest, p.nonce, p.creator)
    requires T.SignedTx(T.CreateProposalWithTransient(digest, p).0, signer, resps) == Ok(env)
    requires CatchUp.Numbered(l.chain) && L.Mirrors(t, l.chain, l.tables) && l.tables.txList == s.txList
    requires l1 == l.(tables := l.tables.(txList := I.Step(digest, s, inv).txList))
    requires s1 == L.Exec(t, l1, steps) && L.Spares(s1.chain, steps, txid) && CatchUp.KeysUnique(t, s1.chain)
    requires L.FirstRow(s1.chain, txid, n, i) && EntryOf(MarshalEnvelope(env)) == Some(s1.chain[n].entries[i])
    requires n !in s1.tables.blocks && L.Enabled(s1, L.RunUpdate(n, alice, bob))
    ensures s1.chain[n].HasCodes()
    ensures var tables := L.Exec(t, L.Next(t, s1, L.RunUpdate(n, alice, bob)), later).tables;
            var txType := if inv.peerType == 1 then I.ByzantineCount(inv.peers) else inv.peerType;
            && B.Index(n, t, i) in tables.txs
            && tables.txs[B.Index(n, t, i)] ==
               B.TxRow(n, txid, inv.peer, if txType > 0 then 1 else 0,
                       if 1 <= txType <= 3 then 1 else s1.chain[n].filter[i],
                       B.Time(p.time.seconds, p.time.nanos))
  {
    AssembledEntry(txid, p, signer, resps);
    L.SubmitMirrors(t, l.chain, l.tables, l1.tables.txList);
    L.SubmittedReachesItsRow(t, l1, txid, steps, s1, n, i, alice, bob);
    L.RunMirrors(t, l1, steps);
    assert CatchUp.Numbered(s1.chain);
    L.RowsAreKept(t, L.Next(t, s1, L.RunUpdate(n, alice, bob)), later);
  }
}
