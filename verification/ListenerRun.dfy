/**
 The indexer at work: registerBlockEvent, syncBlock and the updateBlock goroutines of
 server/block_listener.go, interleaved in any way with the growth of the chain and with
 submitted transactions.
 */
module ListenerRun {
  import opened Wrappers
  import opened Wire
  import opened TxList
  import opened BlockListener
  import opened CatchUp

  // ----- the system -----

  /** h - 1 on uint64. */
  function Pred64(h: nat): nat {
    if h == 0 then TWO_64 - 1 else h - 1
  }

  function Range(lo: nat, hi: nat): (r: seq<nat>)
    ensures forall n :: n in r <==> lo <= n < hi
  {
    if lo >= hi then [] else Range(lo, hi - 1) + [hi - 1]
  }

  /** The blocks syncBlock starts updates for; it panics first when the table is higher than the ledger. */
  function SyncRange(height: nat, ledgerHeight: nat): seq<nat> {
    if height < Pred64(ledgerHeight) then Range(height, ledgerHeight) else []
  }

  /** From the stored height up to the last block of the ledger, when the ledger is ahead by a block or more. */
  lemma SyncRangeIs(height: uint64, ledgerHeight: uint64)
    ensures |SyncRange(height, ledgerHeight)| == if height + 1 < ledgerHeight then ledgerHeight - height else 0
    ensures forall i | 0 <= i < |SyncRange(height, ledgerHeight)| :: SyncRange(height, ledgerHeight)[i] == height + i
  {
    RangeIs(height, ledgerHeight);
  }

  lemma {:induction false} RangeIs(lo: nat, hi: nat)
    ensures |Range(lo, hi)| == if lo < hi then hi - lo else 0
    ensures forall i | 0 <= i < |Range(lo, hi)| :: Range(lo, hi)[i] == lo + i
    decreases hi
  {
    if lo < hi {
      RangeIs(lo, hi - 1);
    }
  }

  /** The first event of a subscription is dropped. */
  function EventStarts(flag: bool, number: nat): seq<nat> {
    if flag then [] else [number]
  }

  datatype State = State(
    chain: seq<Block>,            // the ledger
    tables: Tables,
    first: Option<nat>,           // the block of the first event of the subscription
    flag: bool,                   // no event received yet
    next: nat,                    // the block of the next event
    tableHeight: Option<nat>,     // syncBlock's max(number)
    ledgerHeight: Option<nat>,    // syncBlock's BCI.Height
    pending: multiset<nat>,       // updateBlock goroutines not yet run
    panicked: bool)

  /** Peers may lag behind the ledger, so the first event and the reported height may be old. */
  datatype Step =
    | Commit(block: Block)
    | Subscribe(first: nat)
    | Deliver
    | ReadTable(height: nat)
    | ReadLedger(height: nat)
    | RunUpdate(number: nat, alice: string, bob: string)
    | Submit(id: TxId, tx: PeerTx)

  /** select max(number) from block, with NULL read as 0. */
  ghost predicate IsHeight(keys: set<nat>, h: nat) {
    if keys == {} then h == 0 else h in keys && forall k <- keys :: k <= h
  }

  ghost predicate Enabled(s: State, step: Step) {
    && !s.panicked
    && match step
       case Commit(b) => b.number == |s.chain| && b.Valid()
       case Subscribe(first) => s.first.None? && first < |s.chain|
       case Deliver => s.first.Some? && s.next < |s.chain|
       case ReadTable(h) => s.tableHeight.None? && IsHeight(s.tables.blocks.Keys, h)
       case ReadLedger(h) => s.tableHeight.Some? && s.ledgerHeight.None? && 1 <= h <= |s.chain|
       case RunUpdate(n, _, _) => n in s.pending && n < |s.chain| && s.chain[n].Valid()
       case Submit(_, _) => true
  }

  ghost function Next(t: int, s: State, step: Step): State
    requires Enabled(s, step)
  {
    match step
    case Commit(b) => s.(chain := s.chain + [b])
    case Subscribe(first) => s.(first := Some(first), next := first)
    case Deliver =>
      s.(flag := false, pending := s.pending + multiset(EventStarts(s.flag, s.next)), next := s.next + 1)
    case ReadTable(h) => s.(tableHeight := Some(h))
    case ReadLedger(h) =>
      if s.tableHeight.value > Pred64(h) then s.(ledgerHeight := Some(h), panicked := true)
      else s.(ledgerHeight := Some(h), pending := s.pending + multiset(SyncRange(s.tableHeight.value, h)))
    case RunUpdate(n, alice, bob) =>
      s.(tables := Update(t, s.chain[n], alice, bob, s.tables), pending := s.pending - multiset{n})
    case Submit(id, tx) => s.(tables := s.tables.(txList := s.tables.txList[id := tx]))
  }

  /** A step that is not enabled does nothing, so every sequence of steps is a run. */
  ghost function Exec(t: int, s: State, steps: seq<Step>): State
    decreases |steps|
  {
    if steps == [] then s
    else Exec(t, if Enabled(s, steps[0]) then Next(t, s, steps[0]) else s, steps[1..])
  }

  ghost function Numbers(lo: nat, hi: nat): set<nat> {
    set n | n in Range(lo, hi)
  }

  /** The server has just started, on whatever tables it finds. */
  ghost predicate Fresh(s: State) {
    && Numbered(s.chain)
    && s.first.None? && s.flag && s.next == 0
    && s.tableHeight.None? && s.ledgerHeight.None?
    && s.pending == multiset{} && !s.panicked
  }

  /** At start-up the block table holds blocks 1 to h0. */
  ghost predicate Initial(s: State, h0: nat) {
    Fresh(s) && s.tables.blocks.Keys == Numbers(1, h0 + 1)
  }

  // ----- the two listeners -----

  lemma SyncFollows(t: int, s: State, ledgerHeight: nat, spawned: seq<nat>, done: multiset<nat>)
    requires Enabled(s, ReadLedger(ledgerHeight)) && multiset(spawned) == s.pending + done
    ensures var s', height := Next(t, s, ReadLedger(ledgerHeight)), s.tableHeight.value;
            && multiset(spawned + SyncRange(height, ledgerHeight)) == s'.pending + done
            && s'.flag == s.flag
            && (s'.panicked <==> height > Pred64(ledgerHeight))
  {
    var started := SyncRange(s.tableHeight.value, ledgerHeight);
    assert multiset(spawned + started) == multiset(spawned) + multiset(started);
  }

  /** The listener's own variables; `spawned` are the blocks updateBlock was started for. */
  class Listener {
    var flag: bool
    var spawned: seq<nat>

    /** The listener is in state s of the system, where the updates of the blocks `done` have run. */
    ghost predicate Follows(s: State, done: multiset<nat>)
      reads this
    {
      flag == s.flag && multiset(spawned) == s.pending + done
    }

    constructor ()
      ensures flag && spawned == []
      ensures forall s: State | Fresh(s) :: Follows(s, multiset{})
    {
      flag, spawned := true, [];
    }

    method OnBlockEvent(number: nat)
      modifies this
      ensures !flag && spawned == old(spawned) + if old(flag) then [] else [number]
      ensures forall t: int, s: State, done: multiset<nat> |
                old(Follows(s, done)) && Enabled(s, Deliver) && s.next == number ::
                Follows(Next(t, s, Deliver), done)
    {
      if flag {
        flag := false;
      } else {
        spawned := spawned + [number];
      }
    }

    method StartUpdates(height: nat, ledgerHeight: nat)
      modifies this`spawned
      ensures spawned == old(spawned) + Range(height, ledgerHeight)
    {
      var i := height;
      while i < ledgerHeight
        invariant if height < ledgerHeight then height <= i <= ledgerHeight else i == height
        invariant spawned == old(spawned) + Range(height, i)
      {
        spawned := spawned + [i];
        i := i + 1;
      }
    }

    method SyncBlock(height: uint64, ledgerHeight: uint64) returns (panicked: bool)
      modifies this`spawned
      ensures panicked <==> 0 < ledgerHeight <= height
      ensures spawned == old(spawned) + SyncRange(height, ledgerHeight)
      ensures |spawned| == |old(spawned)| + if height + 1 < ledgerHeight then ledgerHeight - height else 0
      ensures forall i | |old(spawned)| <= i < |spawned| :: spawned[i] == height + (i - |old(spawned)|)
      ensures forall t: int, s: State, done: multiset<nat> |
                old(Follows(s, done)) && s.tableHeight == Some(height) && Enabled(s, ReadLedger(ledgerHeight)) ::
                var s' := Next(t, s, ReadLedger(ledgerHeight));
                Follows(s', done) && s'.panicked == panicked
    {
      panicked := false;
      if height > Pred64(ledgerHeight) {
        panicked := true;
      } else if height < Pred64(ledgerHeight) {
        StartUpdates(height, ledgerHeight);
      }
      forall t: int, s: State, done: multiset<nat> |
        old(Follows(s, done)) && s.tableHeight == Some(height) && Enabled(s, ReadLedger(ledgerHeight))
        ensures Follows(Next(t, s, ReadLedger(ledgerHeight)), done)
        ensures Next(t, s, ReadLedger(ledgerHeight)).panicked == panicked
      {
        SyncFollows(t, s, ledgerHeight, old(spawned), done);
      }
      SyncRangeIs(height, ledgerHeight);
    }
  }

  // ----- which blocks are indexed -----

  /** Live events bring the blocks after the first one. */
  ghost function Live(s: State): set<nat> {
    if s.first.Some? then Numbers(s.first.value + 1, s.next) else {}
  }

  ghost function Synced(s: State): set<nat> {
    if s.tableHeight.Some? && s.ledgerHeight.Some?
    then set n | n in SyncRange(s.tableHeight.value, s.ledgerHeight.value) && n != 0
    else {}
  }

  ghost function Outstanding(s: State): set<nat> {
    set n | n in s.pending && n != 0
  }

  /** `keys` are the numbers in the block table at start-up. */
  ghost predicate Inv(s: State, keys: set<nat>) {
    && Numbered(s.chain)
    && (s.first.None? ==> s.flag && s.next == 0)
    && (s.first.Some? ==> s.first.value <= s.next <= |s.chain| && (s.flag <==> s.next == s.first.value))
    && (s.ledgerHeight.Some? ==> s.tableHeight.Some? && 1 <= s.ledgerHeight.value <= |s.chain|)
    && (s.tableHeight.Some? ==>
          || IsHeight(keys, s.tableHeight.value)
          || (s.tableHeight.value in Live(s) && forall k <- keys :: k < s.tableHeight.value))
    && (s.ledgerHeight.Some? ==> (s.panicked <==> s.tableHeight.value >= s.ledgerHeight.value))
    && (s.ledgerHeight.None? ==> !s.panicked)
    && keys <= s.tables.blocks.Keys
    && s.tables.blocks.Keys + Outstanding(s) == keys + Live(s) + Synced(s)
  }

  lemma UpdateKeys(t: int, b: Block, alice: string, bob: string, s: Tables)
    requires b.Valid()
    ensures Update(t, b, alice, bob, s).blocks.Keys == s.blocks.Keys + if b.number == 0 then {} else {b.number as nat}
  {
  }

  lemma DeliverKeepsInv(t: int, s: State, keys: set<nat>)
    requires Inv(s, keys) && Enabled(s, Deliver)
    ensures Inv(Next(t, s, Deliver), keys)
  {
    var s' := Next(t, s, Deliver);
    if s.flag {
      assert s'.pending == s.pending;
      assert Live(s') == Live(s);
    } else {
      assert Outstanding(s') == Outstanding(s) + if s.next == 0 then {} else {s.next};
      assert Live(s') == Live(s) + {s.next};
    }
  }

  lemma ReadTableKeepsInv(t: int, s: State, h: nat, keys: set<nat>)
    requires Inv(s, keys) && Enabled(s, ReadTable(h))
    ensures Inv(Next(t, s, ReadTable(h)), keys)
  {
    if h !in keys && s.tables.blocks.Keys != {} {
      assert h in keys + Live(s);
    }
  }

  lemma ReadLedgerAddsSynced(t: int, s: State, h: nat)
    requires Enabled(s, ReadLedger(h))
    ensures var s' := Next(t, s, ReadLedger(h));
            Outstanding(s') == Outstanding(s) + Synced(s')
  {
    var s' := Next(t, s, ReadLedger(h));
    if !s'.panicked {
      assert forall n :: n in s'.pending <==> n in s.pending || n in SyncRange(s.tableHeight.value, h);
    }
  }

  lemma ReadLedgerKeepsInv(t: int, s: State, h: nat, keys: set<nat>)
    requires Inv(s, keys) && Enabled(s, ReadLedger(h))
    ensures Inv(Next(t, s, ReadLedger(h)), keys)
  {
    var s' := Next(t, s, ReadLedger(h));
    assert Live(s') == Live(s) && Synced(s) == {};
    ReadLedgerAddsSynced(t, s, h);
  }

  lemma RunUpdateMovesNumber(t: int, s: State, n: nat, alice: string, bob: string)
    requires Numbered(s.chain) && Enabled(s, RunUpdate(n, alice, bob))
    ensures var s', ran := Next(t, s, RunUpdate(n, alice, bob)), if n == 0 then {} else {n};
            Outstanding(s) == Outstanding(s') + ran && s'.tables.blocks.Keys == s.tables.blocks.Keys + ran
  {
    UpdateKeys(t, s.chain[n], alice, bob, s.tables);
  }

  lemma RunUpdateKeepsInv(t: int, s: State, n: nat, alice: string, bob: string, keys: set<nat>)
    requires Inv(s, keys) && Enabled(s, RunUpdate(n, alice, bob))
    ensures Inv(Next(t, s, RunUpdate(n, alice, bob)), keys)
  {
    var s' := Next(t, s, RunUpdate(n, alice, bob));
    RunUpdateMovesNumber(t, s, n, alice, bob);
    assert Live(s') == Live(s) && Synced(s') == Synced(s);
    assert s'.tables.blocks.Keys + Outstanding(s') == s.tables.blocks.Keys + Outstanding(s);
  }

  lemma StepKeepsInv(t: int, s: State, step: Step, keys: set<nat>)
    requires Inv(s, keys) && Enabled(s, step)
    ensures Inv(Next(t, s, step), keys)
  {
    match step
    case Commit(b) => assert Next(t, s, step).chain[..|s.chain|] == s.chain;
    case Subscribe(first) =>
    case Deliver => DeliverKeepsInv(t, s, keys);
    case ReadTable(h) => ReadTableKeepsInv(t, s, h, keys);
    case ReadLedger(h) => ReadLedgerKeepsInv(t, s, h, keys);
    case RunUpdate(n, alice, bob) => RunUpdateKeepsInv(t, s, n, alice, bob, keys);
    case Submit(id, tx) =>
  }

  lemma {:induction false} RunKeepsInv(t: int, s: State, steps: seq<Step>, keys: set<nat>)
    requires Inv(s, keys)
    ensures Inv(Exec(t, s, steps), keys)
    decreases |steps|
  {
    if steps != [] {
      if Enabled(s, steps[0]) {
        StepKeepsInv(t, s, steps[0], keys);
      }
      RunKeepsInv(t, if Enabled(s, steps[0]) then Next(t, s, steps[0]) else s, steps[1..], keys);
    }
  }

  lemma RunFromFresh(t: int, s0: State, steps: seq<Step>)
    requires Fresh(s0)
    ensures Inv(Exec(t, s0, steps), s0.tables.blocks.Keys)
  {
    assert Outstanding(s0) == {};
    RunKeepsInv(t, s0, steps, s0.tables.blocks.Keys);
  }

  /** Start-up is over: syncBlock has run, the first event has come, and no update is outstanding. */
  ghost predicate Quiescent(s: State) {
    !s.panicked && s.ledgerHeight.Some? && s.tableHeight.Some? && s.first.Some? && !s.flag && s.pending == multiset{}
  }

  /** Every block that syncBlock or the events have heard of is indexed, and nothing else. */
  ghost predicate NoGap(s: State)
    requires s.ledgerHeight.Some?
  {
    s.tables.blocks.Keys == Numbers(1, if s.next > s.ledgerHeight.value then s.next else s.ledgerHeight.value)
  }

  /**
   The hand-off from catch-up to live events leaves no gap in exactly two cases: the table already
   reached the first event's block, or syncBlock read the table before any live block was stored
   and then found a ledger at least as high as the first event.
   */
  lemma HandOff(t: int, s0: State, steps: seq<Step>, h0: nat)
    requires Initial(s0, h0) && Quiescent(Exec(t, s0, steps))
    ensures var s := Exec(t, s0, steps);
            var firstLive := s.first.value + 1;
            NoGap(s) <==> firstLive <= h0 + 1 || (s.tableHeight.value == h0 && firstLive <= s.ledgerHeight.value)
  {
    RunFromFresh(t, s0, steps);
    GapIff(Exec(t, s0, steps), h0);
  }

  lemma GapIff(s: State, h0: nat)
    requires Inv(s, Numbers(1, h0 + 1)) && Quiescent(s)
    ensures var firstLive := s.first.value + 1;
            NoGap(s) <==> firstLive <= h0 + 1 || (s.tableHeight.value == h0 && firstLive <= s.ledgerHeight.value)
  {
    var keys, r, h, f := s.tables.blocks.Keys, s.tableHeight.value, s.ledgerHeight.value, s.first.value + 1;
    assert Outstanding(s) == {};
    HeightIs(h0, r);
    var top := if s.next > h then s.next else h;
    if f <= h0 + 1 || (r == h0 && f <= h) {
      forall n
        ensures n in keys <==> n in Numbers(1, top)
      {
      }
    } else {
      var missing := if r == h0 then f - 1 else h0 + 1;
      assert missing in Numbers(1, top) && missing !in keys;
    }
  }

  lemma HeightIs(h0: nat, r: nat)
    ensures IsHeight(Numbers(1, h0 + 1), r) ==> r == h0
    ensures h0 > 0 ==> h0 in Numbers(1, h0 + 1)
  {
    assert h0 > 0 ==> h0 in Numbers(1, h0 + 1);
    assert h0 == 0 ==> Numbers(1, h0 + 1) == {};
  }

  /** A table without gaps up to the ledger is left alone by a further syncBlock at the same height. */
  lemma SecondSyncStartsNothing(keys: set<nat>, height: nat, ledgerHeight: nat)
    requires ledgerHeight >= 1 && keys == Numbers(1, ledgerHeight) && IsHeight(keys, height)
    ensures height == Pred64(ledgerHeight) && SyncRange(height, ledgerHeight) == []
  {
    assert ledgerHeight > 1 ==> ledgerHeight - 1 in keys;
  }

  // ----- the two ways to lose a block -----

  lemma ExecOne(t: int, s: State, step: Step, rest: seq<Step>)
    requires Enabled(s, step)
    ensures Exec(t, s, [step] + rest) == Exec(t, Next(t, s, step), rest)
  {
    assert ([step] + rest)[1..] == rest;
  }

  /** The ledger grows between QueryInfo and the subscription: the block of the dropped event is lost. */
  lemma LostBeforeSubscription(t: int, s0: State, b: Block)
    requires Initial(s0, 0) && |s0.chain| == 1 && b.number == 1 && b.Valid()
    ensures var s := Exec(t, s0, [ReadTable(0), ReadLedger(1), Commit(b), Subscribe(1), Deliver]);
            Quiescent(s) && |s.chain| == 2 && 1 !in s.tables.blocks && !NoGap(s)
  {
    var s1 := Next(t, s0, ReadTable(0));
    ExecOne(t, s0, ReadTable(0), [ReadLedger(1), Commit(b), Subscribe(1), Deliver]);
    var s2 := Next(t, s1, ReadLedger(1));
    ExecOne(t, s1, ReadLedger(1), [Commit(b), Subscribe(1), Deliver]);
    var s3 := Next(t, s2, Commit(b));
    ExecOne(t, s2, Commit(b), [Subscribe(1), Deliver]);
    var s4 := Next(t, s3, Subscribe(1));
    ExecOne(t, s3, Subscribe(1), [Deliver]);
    ExecOne(t, s4, Deliver, []);
    assert 1 in Numbers(1, 2);
  }

  lemma {:induction false} ExecConcat(t: int, s: State, a: seq<Step>, b: seq<Step>)
    ensures Exec(t, s, a + b) == Exec(t, Exec(t, s, a), b)
    decreases |a|
  {
    if a == [] {
      assert a + b == b;
    } else {
      assert (a + b)[1..] == a[1..] + b;
      ExecConcat(t, if Enabled(s, a[0]) then Next(t, s, a[0]) else s, a[1..], b);
    }
  }

  lemma FirstEventThenLiveBlock(t: int, s0: State, b: Block)
    requires Initial(s0, 0) && |s0.chain| == 2 && b.number == 2 && b.Valid()
    ensures Exec(t, s0, [Subscribe(1), Deliver, Commit(b), Deliver]) ==
            s0.(chain := s0.chain + [b], first := Some(1), next := 3, flag := false, pending := multiset{2})
  {
    var s1 := s0.(first := Some(1), next := 1);
    ExecOne(t, s0, Subscribe(1), [Deliver, Commit(b), Deliver]);
    var s2 := s1.(flag := false, next := 2);
    ExecOne(t, s1, Deliver, [Commit(b), Deliver]);
    var s3 := s2.(chain := s0.chain + [b]);
    ExecOne(t, s2, Commit(b), [Deliver]);
    ExecOne(t, s3, Deliver, []);
  }

  /** A live block is stored before syncBlock asks for max(number): everything between is lost. */
  lemma LostBehindLiveBlock(t: int, s0: State, b: Block, alice: string, bob: string)
    requires Initial(s0, 0) && |s0.chain| == 2 && b.number == 2 && b.Valid()
    ensures var s := Exec(t, s0, [Subscribe(1), Deliver, Commit(b), Deliver] +
                                 [RunUpdate(2, alice, bob), ReadTable(2), ReadLedger(3)]);
            Quiescent(s) && 2 in s.tables.blocks && 1 !in s.tables.blocks && !NoGap(s)
  {
    ExecConcat(t, s0, [Subscribe(1), Deliver, Commit(b), Deliver],
               [RunUpdate(2, alice, bob), ReadTable(2), ReadLedger(3)]);
    FirstEventThenLiveBlock(t, s0, b);
    var s4 := Exec(t, s0, [Subscribe(1), Deliver, Commit(b), Deliver]);
    UpdateKeys(t, b, alice, bob, s4.tables);
    var s5 := Next(t, s4, RunUpdate(2, alice, bob));
    ExecOne(t, s4, RunUpdate(2, alice, bob), [ReadTable(2), ReadLedger(3)]);
    assert s5.tables.blocks.Keys == {2};
    var s6 := s5.(tableHeight := Some(2));
    ExecOne(t, s5, ReadTable(2), [ReadLedger(3)]);
    ExecOne(t, s6, ReadLedger(3), []);
    assert 1 in Numbers(1, 3);
  }

  // ----- an old gap -----

  /** Block m is missing although a later one is stored. */
  ghost predicate Gap(keys: set<nat>, m: nat) {
    m >= 1 && m !in keys && exists k <- keys :: k > m
  }

  /** A gap found at start-up is closed by live events or not at all: syncBlock never goes back to it. */
  lemma OldGapClosesLive(t: int, s0: State, steps: seq<Step>, m: nat)
    requires Fresh(s0) && Gap(s0.tables.blocks.Keys, m)
    ensures var s := Exec(t, s0, steps);
            m in s.tables.blocks || m in s.pending <==> s.first.Some? && s.first.value < m < s.next
  {
    var s := Exec(t, s0, steps);
    RunFromFresh(t, s0, steps);
    assert m in s.pending <==> m in Outstanding(s);
    assert m in s.tables.blocks.Keys + Outstanding(s) <==> m in Live(s) || m in Synced(s);
    var k :| k in s0.tables.blocks.Keys && k > m;
    assert s.tableHeight.Some? ==> s.tableHeight.value >= k;
  }

  ghost predicate NeverBelow(steps: seq<Step>, m: nat) {
    forall step <- steps :: step.Subscribe? ==> step.first >= m
  }

  lemma {:induction false} FirstIsSubscribed(t: int, s: State, steps: seq<Step>, m: nat)
    requires NeverBelow(steps, m) && (s.first.Some? ==> s.first.value >= m)
    ensures var s' := Exec(t, s, steps);
            s'.first.Some? ==> s'.first.value >= m
    decreases |steps|
  {
    if steps != [] {
      FirstIsSubscribed(t, if Enabled(s, steps[0]) then Next(t, s, steps[0]) else s, steps[1..], m);
    }
  }

  /** The process ends and starts again: ledger and database stay, everything in memory is gone. */
  ghost function Restarted(s: State): State {
    State(s.chain, s.tables.(txList := map[]), None, true, 0, None, None, multiset{}, false)
  }

  ghost function Lives(t: int, s: State, lives: seq<seq<Step>>): State
    decreases |lives|
  {
    if lives == [] then s else Lives(t, Restarted(Exec(t, s, lives[0])), lives[1..])
  }

  /** No number of restarts closes a gap below the blocks the subscriptions start at. */
  lemma {:induction false} GapOutlivesRestarts(t: int, s: State, lives: seq<seq<Step>>, m: nat)
    requires Fresh(s) && Gap(s.tables.blocks.Keys, m)
    requires forall life <- lives :: NeverBelow(life, m)
    ensures Gap(Lives(t, s, lives).tables.blocks.Keys, m)
    decreases |lives|
  {
    if lives != [] {
      var end := Exec(t, s, lives[0]);
      RunFromFresh(t, s, lives[0]);
      OldGapClosesLive(t, s, lives[0], m);
      FirstIsSubscribed(t, s, lives[0], m);
      GapOutlivesRestarts(t, Restarted(end), lives[1..], m);
    }
  }

  // ----- what the tables say about the chain -----

  /** Row k of the transaction table is the row of position i of block n. */
  ghost predicate RowFrom(t: int, chain: seq<Block>, tables: Tables, k: nat, n: nat, i: nat) {
    && k in tables.txs
    && n in tables.blocks && n < |chain| && IsRow(chain[n], i)
    && k == Index(n, t, i)
    && tables.txs[k].block == n
    && tables.txs[k].txId == chain[n].entries[i].id
    && tables.txs[k].time == chain[n].entries[i].time
  }

  ghost predicate BlockRowFrom(b: Block, row: BlockRow) {
    row.hash == b.dataHash && row.txCount == |b.entries| && row.time == LastTime(b, Stop(b.entries))
  }

  /**
   The tables mirror the chain: each block row is the row of its block, each transaction row belongs
   to a position of a block the tables hold, and each row key of such a block is occupied.
   */
  ghost predicate Mirrors(t: int, chain: seq<Block>, tables: Tables) {
    && (forall n <- tables.blocks :: 1 <= n < |chain| && BlockRowFrom(chain[n], tables.blocks[n]))
    && (forall n <- tables.blocks :: AllIndexes(chain[n], t) <= tables.txs.Keys)
    && (forall k <- tables.txs :: exists n, i :: RowFrom(t, chain, tables, k, n, i))
  }

  lemma {:induction false} NewRowsMatch(b: Block, t: int, n: nat, txList: map<TxId, PeerTx>, k: nat) returns (i: nat)
    requires b.HasCodes() && n <= Stop(b.entries) && k in NewRows(b, t, n, txList)
    ensures i < n && IsRow(b, i) && k == Index(b.number, t, i)
    ensures var row := NewRows(b, t, n, txList)[k];
            row.block == b.number && row.txId == b.entries[i].id && row.time == b.entries[i].time
  {
    if n > 0 && k in NewRows(b, t, n - 1, txList) {
      i := NewRowsMatch(b, t, n - 1, txList, k);
    } else {
      i := n - 1;
    }
  }

  lemma RowsKeepTheirBlock(t: int, chain: seq<Block>, n: nat, alice: string, bob: string, tables: Tables, k: nat)
    requires Numbered(chain) && 0 < n < |chain| && Mirrors(t, chain, tables)
    requires k in Update(t, chain[n], alice, bob, tables).txs
    ensures exists n', i :: RowFrom(t, chain, Update(t, chain[n], alice, bob, tables), k, n', i)
  {
    var tables' := Update(t, chain[n], alice, bob, tables);
    UpdateByEffect(t, chain[n], alice, bob, tables);
    if k in tables.txs {
      var n', i :| RowFrom(t, chain, tables, k, n', i);
      assert RowFrom(t, chain, tables', k, n', i);
    } else {
      var i := NewRowsMatch(chain[n], t, Stop(chain[n].entries), tables.txList, k);
      assert RowFrom(t, chain, tables', k, n, i);
    }
  }

  lemma UpdateMirrors(t: int, chain: seq<Block>, n: nat, alice: string, bob: string, tables: Tables)
    requires Numbered(chain) && n < |chain| && Mirrors(t, chain, tables)
    ensures Mirrors(t, chain, Update(t, chain[n], alice, bob, tables))
  {
    if n != 0 {
      var b := chain[n];
      UpdateByEffect(t, b, alice, bob, tables);
      AfterCarriesLastTime(b, t, Stop(b.entries), Work(tables.txList, map[], START));
      forall k | k in Update(t, b, alice, bob, tables).txs
        ensures exists n', i :: RowFrom(t, chain, Update(t, b, alice, bob, tables), k, n', i)
      {
        RowsKeepTheirBlock(t, chain, n, alice, bob, tables, k);
      }
    }
  }

  /** Block h, which syncBlock always processes again, changes no row. */
  lemma ReattemptOfIndexedBlock(t: int, chain: seq<Block>, tables: Tables, n: nat, alice: string, bob: string)
    requires Numbered(chain) && Mirrors(t, chain, tables) && (n == 0 || n in tables.blocks) && n < |chain|
    ensures var tables' := Update(t, chain[n], alice, bob, tables);
            tables'.blocks == tables.blocks && tables'.txs == tables.txs
  {
    ReattemptChangesNoRow(t, chain[n], alice, bob, tables);
  }

  lemma CommitMirrors(t: int, chain: seq<Block>, b: Block, tables: Tables)
    requires Mirrors(t, chain, tables)
    ensures Mirrors(t, chain + [b], tables)
  {
    forall k | k in tables.txs
      ensures exists n, i :: RowFrom(t, chain + [b], tables, k, n, i)
    {
      var n, i :| RowFrom(t, chain, tables, k, n, i);
      assert RowFrom(t, chain + [b], tables, k, n, i);
    }
  }

  lemma SubmitMirrors(t: int, chain: seq<Block>, tables: Tables, txList: map<TxId, PeerTx>)
    requires Mirrors(t, chain, tables)
    ensures Mirrors(t, chain, tables.(txList := txList))
  {
    forall k | k in tables.txs
      ensures exists n, i :: RowFrom(t, chain, tables.(txList := txList), k, n, i)
    {
      var n, i :| RowFrom(t, chain, tables, k, n, i);
      assert RowFrom(t, chain, tables.(txList := txList), k, n, i);
    }
  }

  lemma StepMirrors(t: int, s: State, step: Step)
    requires Numbered(s.chain) && Mirrors(t, s.chain, s.tables) && Enabled(s, step)
    ensures var s' := Next(t, s, step);
            Numbered(s'.chain) && Mirrors(t, s'.chain, s'.tables)
  {
    match step
    case Commit(b) => CommitMirrors(t, s.chain, b, s.tables);
    case RunUpdate(n, alice, bob) => UpdateMirrors(t, s.chain, n, alice, bob, s.tables);
    case Submit(id, tx) => SubmitMirrors(t, s.chain, s.tables, s.tables.txList[id := tx]);
    case _ =>
  }

  /** Whatever the interleaving, the tables never show anything the chain does not hold. */
  lemma {:induction false} RunMirrors(t: int, s: State, steps: seq<Step>)
    requires Numbered(s.chain) && Mirrors(t, s.chain, s.tables)
    ensures var s' := Exec(t, s, steps);
            Numbered(s'.chain) && Mirrors(t, s'.chain, s'.tables)
    decreases |steps|
  {
    if steps != [] {
      if Enabled(s, steps[0]) {
        StepMirrors(t, s, steps[0]);
      }
      RunMirrors(t, if Enabled(s, steps[0]) then Next(t, s, steps[0]) else s, steps[1..]);
    }
  }

  // ----- whose row it is -----

  /** With unique keys a stored block has its own row at every position, and a missing block has its keys free. */
  lemma MirroredRowIsOwn(t: int, chain: seq<Block>, tables: Tables, n: nat, i: nat)
    requires Numbered(chain) && Mirrors(t, chain, tables) && KeysUnique(t, chain)
    requires 0 < n < |chain| && SliceSized(chain[n]) && IsRow(chain[n], i)
    ensures if n in tables.blocks then RowFrom(t, chain, tables, Index(n, t, i), n, i)
            else Index(n, t, i) !in tables.txs
  {
    var k := Index(n, t, i);
    if n in tables.blocks {
      assert k in AllIndexes(chain[n], t);
    }
    if k in tables.txs {
      var n', i' :| RowFrom(t, chain, tables, k, n', i');
      assert n' == n;
      KeysOfBlockDiffer(chain[n], t);
      assert i' == i;
    }
  }

  // ----- a submitted transaction reaches its row -----

  lemma {:induction false} ChainGrows(t: int, s: State, steps: seq<Step>)
    ensures s.chain <= Exec(t, s, steps).chain
    decreases |steps|
  {
    if steps != [] {
      ChainGrows(t, if Enabled(s, steps[0]) then Next(t, s, steps[0]) else s, steps[1..]);
    }
  }

  /** None of the steps resubmits the id or runs a block that holds it. */
  ghost predicate Spares(chain: seq<Block>, steps: seq<Step>, id: TxId) {
    forall step <- steps ::
      && (step.Submit? ==> step.id != id)
      && (step.RunUpdate? && 0 < step.number < |chain| ==> id !in AllIds(chain[step.number]))
  }

  lemma {:induction false} AwaitedUntilItsBlock(t: int, s: State, steps: seq<Step>, id: TxId)
    requires Numbered(s.chain) && id in s.tables.txList && Spares(Exec(t, s, steps).chain, steps, id)
    ensures var s' := Exec(t, s, steps);
            id in s'.tables.txList && s'.tables.txList[id] == s.tables.txList[id]
    decreases |steps|
  {
    if steps != [] {
      var step := steps[0];
      var s1 := if Enabled(s, step) then Next(t, s, step) else s;
      ChainGrows(t, s, steps);
      if Enabled(s, step) && step.RunUpdate? && step.number != 0 {
        UpdateByEffect(t, s.chain[step.number], step.alice, step.bob, s.tables);
        assert s.chain[step.number] == Exec(t, s, steps).chain[step.number];
      }
      AwaitedUntilItsBlock(t, s1, steps[1..], id);
    }
  }

  /** Block n of the chain carries the id at position i for the first time. */
  ghost predicate FirstRow(chain: seq<Block>, id: TxId, n: nat, i: nat) {
    && 0 < n < |chain|
    && var b := chain[n];
    && SliceSized(b) && IsRow(b, i) && b.entries[i].id == id
    && forall k | 0 <= k < i && b.entries[k].Tx? :: b.entries[k].id != id
  }

  lemma HitIsAttributed(b: Block, t: int, txList: map<TxId, PeerTx>, i: nat, row: TxRow)
    requires b.HasCodes() && Hit(b, txList, i) && RowIsAttributed(b, txList, i, row)
    ensures row == RowOf(b, i, txList[b.entries[i].id].peerName, txList[b.entries[i].id].peerType)
  {
    assert NoHit(b, txList, i + 1, i + 1);
  }

  /**
   A transaction that awaits its block shows, once the block is processed for the first time, in the
   row of its first position under the peer and type it was submitted with, whatever else happens
   in between: exactly when the key of that row is still free, as it is when row keys are unique.
   */
  lemma SubmittedReachesItsRow(
    t: int, s: State, id: TxId, steps: seq<Step>, s1: State, n: nat, i: nat, alice: string, bob: string)
    requires Numbered(s.chain) && Mirrors(t, s.chain, s.tables) && id in s.tables.txList
    requires s1 == Exec(t, s, steps) && Spares(s1.chain, steps, id)
    requires FirstRow(s1.chain, id, n, i) && n !in s1.tables.blocks && Enabled(s1, RunUpdate(n, alice, bob))
    ensures s1.chain[n].HasCodes()
    ensures var s2, tx := Next(t, s1, RunUpdate(n, alice, bob)), s.tables.txList[id];
            && Index(n, t, i) in s2.tables.txs
            && (s2.tables.txs[Index(n, t, i)] == RowOf(s1.chain[n], i, tx.peerName, tx.peerType) <==>
                Index(n, t, i) !in s1.tables.txs)
            && id !in s2.tables.txList
    ensures KeysUnique(t, s1.chain) ==> Index(n, t, i) !in s1.tables.txs
  {
    RunMirrors(t, s, steps);
    AwaitedUntilItsBlock(t, s, steps, id);
    var b, k := s1.chain[n], Index(n, t, i);
    AttributionIsLastHit(t, b, alice, bob, s1.tables);
    assert Hit(b, s1.tables.txList, i) && id in AllIds(b);
    assert Index(b.number, t, i) in AllIndexes(b, t);
    if k in s1.tables.txs {
      TakenRowIsOlder(t, s1.chain, s1.tables, n, k);
    } else {
      HitIsAttributed(b, t, s1.tables.txList, i, Update(t, b, alice, bob, s1.tables).txs[k]);
    }
    if KeysUnique(t, s1.chain) {
      MirroredRowIsOwn(t, s1.chain, s1.tables, n, i);
    }
  }

  lemma TakenRowIsOlder(t: int, chain: seq<Block>, tables: Tables, n: nat, k: nat)
    requires Mirrors(t, chain, tables) && n !in tables.blocks && k in tables.txs
    ensures tables.txs[k].block != n
  {
    var n', i :| RowFrom(t, chain, tables, k, n', i);
  }

  ghost predicate Extends(tables: Tables, tables': Tables) {
    && (forall k <- tables.txs :: k in tables'.txs && tables'.txs[k] == tables.txs[k])
    && (forall n <- tables.blocks :: n in tables'.blocks && tables'.blocks[n] == tables.blocks[n])
  }

  lemma StepExtends(t: int, s: State, step: Step)
    requires Numbered(s.chain) && Enabled(s, step)
    ensures Extends(s.tables, Next(t, s, step).tables) && Numbered(Next(t, s, step).chain)
  {
    if step.RunUpdate? && step.number != 0 {
      UpdateByEffect(t, s.chain[step.number], step.alice, step.bob, s.tables);
    }
  }

  /** Nothing that is in the tables ever changes. */
  lemma {:induction false} RowsAreKept(t: int, s: State, steps: seq<Step>)
    requires Numbered(s.chain)
    ensures Extends(s.tables, Exec(t, s, steps).tables)
    decreases |steps|
  {
    if steps != [] {
      if Enabled(s, steps[0]) {
        StepExtends(t, s, steps[0]);
      }
      RowsAreKept(t, if Enabled(s, steps[0]) then Next(t, s, steps[0]) else s, steps[1..]);
    }
  }
}
