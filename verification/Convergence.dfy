/** Two runs of the indexer over the same chain: what their tables have in common. */
module Convergence {
  import opened Wrappers
  import opened Wire
  import opened TxList
  import opened BlockListener
  import opened CatchUp
  import opened ListenerRun

  // ----- any two runs -----

  ghost predicate RowsAgree(a: Tables, b: Tables, k: nat) {
    && k in a.txs && k in b.txs
    && var r, r' := a.txs[k], b.txs[k];
    && r.block == r'.block && r.txId == r'.txId && r.time == r'.time
  }

  ghost predicate BlockRowsAgree(a: Tables, b: Tables, n: nat) {
    && n in a.blocks && n in b.blocks
    && var r, r' := a.blocks[n], b.blocks[n];
    && r.hash == r'.hash && r.txCount == r'.txCount && r.time == r'.time
  }

  /** The same blocks, and the same transaction at every key; who submitted it is left open. */
  ghost predicate TablesAgree(a: Tables, b: Tables) {
    && a.blocks.Keys == b.blocks.Keys && a.txs.Keys == b.txs.Keys
    && (forall n <- a.blocks :: BlockRowsAgree(a, b, n))
    && (forall k <- a.txs :: RowsAgree(a, b, k))
  }

  lemma RowIsInBoth(t: int, chain: seq<Block>, a: Tables, b: Tables, k: nat)
    requires Numbered(chain) && Mirrors(t, chain, a) && Mirrors(t, chain, b) && KeysUnique(t, chain)
    requires (forall b <- chain :: SliceSized(b)) && a.blocks.Keys == b.blocks.Keys && k in a.txs
    ensures RowsAgree(a, b, k)
  {
    var n, i :| RowFrom(t, chain, a, k, n, i);
    assert n in b.blocks.Keys;
    MirroredRowIsOwn(t, chain, b, n, i);
  }

  lemma RowsAreInBoth(t: int, chain: seq<Block>, a: Tables, b: Tables)
    requires Numbered(chain) && Mirrors(t, chain, a) && Mirrors(t, chain, b) && KeysUnique(t, chain)
    requires (forall b <- chain :: SliceSized(b)) && a.blocks.Keys == b.blocks.Keys
    ensures a.txs.Keys <= b.txs.Keys && forall k <- a.txs :: RowsAgree(a, b, k)
  {
    forall k | k in a.txs
      ensures RowsAgree(a, b, k)
    {
      RowIsInBoth(t, chain, a, b, k);
    }
  }

  lemma BlockRowsAreInBoth(t: int, chain: seq<Block>, a: Tables, b: Tables)
    requires Mirrors(t, chain, a) && Mirrors(t, chain, b) && a.blocks.Keys == b.blocks.Keys
    ensures forall n <- a.blocks :: BlockRowsAgree(a, b, n)
  {
    forall n | n in a.blocks
      ensures BlockRowsAgree(a, b, n)
    {
      assert n in a.blocks.Keys && n in b.blocks;
    }
  }

  lemma TablesConverge(t: int, chain: seq<Block>, a: Tables, b: Tables)
    requires Numbered(chain) && Mirrors(t, chain, a) && Mirrors(t, chain, b) && KeysUnique(t, chain)
    requires (forall b <- chain :: SliceSized(b)) && a.blocks.Keys == b.blocks.Keys
    ensures TablesAgree(a, b)
  {
    RowsAreInBoth(t, chain, a, b);
    RowsAreInBoth(t, chain, b, a);
    BlockRowsAreInBoth(t, chain, a, b);
  }

  /**
   Two runs, of whatever length and interleaving, that end with the same chain and have indexed the
   same blocks of it show the same table contents, attribution and balances aside.
   */
  lemma RunsConverge(t: int, s: State, steps: seq<Step>, s': State, steps': seq<Step>)
    requires Numbered(s.chain) && Mirrors(t, s.chain, s.tables)
    requires Numbered(s'.chain) && Mirrors(t, s'.chain, s'.tables)
    requires Exec(t, s, steps).chain == Exec(t, s', steps').chain
    requires KeysUnique(t, Exec(t, s, steps).chain) && forall b <- Exec(t, s, steps).chain :: SliceSized(b)
    requires Exec(t, s, steps).tables.blocks.Keys == Exec(t, s', steps').tables.blocks.Keys
    ensures TablesAgree(Exec(t, s, steps).tables, Exec(t, s', steps').tables)
  {
    RunMirrors(t, s, steps);
    RunMirrors(t, s', steps');
    TablesConverge(t, Exec(t, s, steps).chain, Exec(t, s, steps).tables, Exec(t, s', steps').tables);
  }

  // ----- runs whose submissions come before their blocks -----

  /** All that was ever submitted: `submitted` and the submissions of the run, whatever updates take from the list. */
  ghost function Submissions(t: int, s: State, steps: seq<Step>, submitted: map<TxId, PeerTx>): map<TxId, PeerTx>
    decreases |steps|
  {
    if steps == [] then submitted
    else
      var step := steps[0];
      if !Enabled(s, step) then Submissions(t, s, steps[1..], submitted)
      else Submissions(t, Next(t, s, step), steps[1..], WithSubmission(submitted, step))
  }

  function WithSubmission(submitted: map<TxId, PeerTx>, step: Step): map<TxId, PeerTx> {
    if step.Submit? then submitted[step.id := step.tx] else submitted
  }

  ghost predicate Holds(chain: seq<Block>, id: TxId) {
    exists n :: 1 <= n < |chain| && id in AllIds(chain[n])
  }

  /** No transaction is submitted when the chain already holds it: InvokeCC submits before it executes. */
  ghost predicate Causal(t: int, s: State, steps: seq<Step>)
    decreases |steps|
  {
    steps == [] ||
    if !Enabled(s, steps[0]) then Causal(t, s, steps[1..])
    else
      && (steps[0].Submit? ==> !Holds(s.chain, steps[0].id))
      && Causal(t, Next(t, s, steps[0]), steps[1..])
  }

  /** The rows of a stored block show what its transactions were submitted with. */
  ghost predicate Attributed(t: int, b: Block, tables: Tables, submitted: map<TxId, PeerTx>)
    requires b.HasCodes()
  {
    && b.number in tables.blocks && tables.blocks[b.number].blockType == TypeUnder(b, submitted)
    && forall i | IsRow(b, i) ::
         var k := Index(b.number, t, i);
         k in tables.txs && tables.txs[k] == RowUnder(b, submitted, i)
  }

  /** `base` are the blocks stored at the start. */
  ghost predicate Traced(t: int, s: State, submitted: map<TxId, PeerTx>, base: set<nat>) {
    && (forall id <- s.tables.txList :: id in submitted && submitted[id] == s.tables.txList[id])
    && (forall id <- submitted :: id in s.tables.txList || Holds(s.chain, id))
    && (forall n | 1 <= n < |s.chain| && n !in s.tables.blocks ::
          AgreeOn(s.tables.txList, submitted, AllIds(s.chain[n])))
    && (forall n | 1 <= n < |s.chain| && n in s.tables.blocks && n !in base ::
          s.chain[n].HasCodes() && Attributed(t, s.chain[n], s.tables, submitted))
  }

  // ----- attribution depends on the block's own transactions -----

  lemma {:induction false} SameLastHit(b: Block, l: map<TxId, PeerTx>, l': map<TxId, PeerTx>, n: nat)
    requires AgreeOn(l, l', AllIds(b)) && n <= Stop(b.entries)
    ensures LastHit(b, l, n) == LastHit(b, l', n)
    ensures LastHit(b, l, n).Some? ==> var id := b.entries[LastHit(b, l, n).value].id;
                                       id in l && id in l' && l[id] == l'[id]
  {
    if n > 0 {
      SameLastHit(b, l, l', n - 1);
      assert b.entries[n - 1].Tx? ==> b.entries[n - 1].id in AllIds(b);
    }
  }

  lemma SameAttribution(b: Block, l: map<TxId, PeerTx>, l': map<TxId, PeerTx>)
    requires b.HasCodes() && AgreeOn(l, l', AllIds(b))
    ensures TypeUnder(b, l) == TypeUnder(b, l')
    ensures forall i | IsRow(b, i) :: RowUnder(b, l, i) == RowUnder(b, l', i)
  {
    SameLastHit(b, l, l', Stop(b.entries));
    forall i: nat | IsRow(b, i)
      ensures RowUnder(b, l, i) == RowUnder(b, l', i)
    {
      SameLastHit(b, l, l', i + 1);
    }
  }

  lemma StaysAttributed(t: int, b: Block, tables: Tables, tables': Tables, l: map<TxId, PeerTx>, l': map<TxId, PeerTx>)
    requires b.HasCodes() && Attributed(t, b, tables, l)
    requires Extends(tables, tables') && AgreeOn(l, l', AllIds(b))
    ensures Attributed(t, b, tables', l')
  {
    SameAttribution(b, l, l');
  }

  /** An update that finds its keys free attributes its rows with the list it finds. */
  lemma UpdateAttributes(t: int, b: Block, alice: string, bob: string, tables: Tables, submitted: map<TxId, PeerTx>)
    requires b.HasCodes() && SliceSized(b) && b.number != 0 && b.number !in tables.blocks
    requires forall i | IsRow(b, i) :: Index(b.number, t, i) !in tables.txs
    requires AgreeOn(tables.txList, submitted, AllIds(b))
    ensures Attributed(t, b, Update(t, b, alice, bob, tables), submitted)
  {
    UpdateByEffect(t, b, alice, bob, tables);
    BlockRowIs(t, b, alice, bob, tables.txList);
    SameAttribution(b, tables.txList, submitted);
    forall i | IsRow(b, i)
      ensures var k := Index(b.number, t, i);
              k in RowsOf(t, b, tables.txList) && RowsOf(t, b, tables.txList)[k] == RowUnder(b, submitted, i)
    {
      RowsOfAt(t, b, tables.txList, i);
    }
  }

  // ----- every step keeps the trace -----

  lemma CommitKeepsTrace(t: int, s: State, b: Block, submitted: map<TxId, PeerTx>, base: set<nat>)
    requires Traced(t, s, submitted, base) && Enabled(s, Commit(b))
    requires Mirrors(t, s.chain, s.tables) && Regular(t, submitted, s.chain + [b])
    ensures Traced(t, Next(t, s, Commit(b)), submitted, base)
  {
    var chain := s.chain + [b];
    forall id | id in submitted && Holds(s.chain, id)
      ensures Holds(chain, id)
      ensures s.chain != [] ==> id !in AllIds(b)
    {
      var m :| 1 <= m < |s.chain| && id in AllIds(s.chain[m]);
      assert chain[m] == s.chain[m] && ShareNoAwaited(submitted, chain[m], chain[|s.chain|]);
      var both := AllIds(chain[m]) * AllIds(b);
      assert id !in both;
    }
  }

  lemma SubmitKeepsTrace(t: int, s: State, id: TxId, tx: PeerTx, submitted: map<TxId, PeerTx>, base: set<nat>)
    requires Traced(t, s, submitted, base) && Enabled(s, Submit(id, tx)) && !Holds(s.chain, id)
    ensures Traced(t, Next(t, s, Submit(id, tx)), submitted[id := tx], base)
  {
    var tables' := Next(t, s, Submit(id, tx)).tables;
    forall n | 1 <= n < |s.chain| && n in s.tables.blocks && n !in base
      ensures s.chain[n].HasCodes() && Attributed(t, s.chain[n], tables', submitted[id := tx])
    {
      StaysAttributed(t, s.chain[n], s.tables, tables', submitted, submitted[id := tx]);
    }
  }

  lemma RunUpdateKeepsTrace(
    t: int, s: State, n: nat, alice: string, bob: string, submitted: map<TxId, PeerTx>, base: set<nat>)
    requires Traced(t, s, submitted, base) && Enabled(s, RunUpdate(n, alice, bob)) && n != 0
    requires Mirrors(t, s.chain, s.tables) && Regular(t, submitted, s.chain)
    requires forall b <- s.chain :: SliceSized(b)
    ensures Traced(t, Next(t, s, RunUpdate(n, alice, bob)), submitted, base)
  {
    var s' := Next(t, s, RunUpdate(n, alice, bob));
    var b := s.chain[n];
    UpdateByEffect(t, b, alice, bob, s.tables);
    forall id | id in submitted
      ensures id in s'.tables.txList || Holds(s.chain, id)
    {
    }
    forall m | 1 <= m < |s.chain| && m !in s'.tables.blocks
      ensures AgreeOn(s'.tables.txList, submitted, AllIds(s.chain[m]))
    {
      AgreeOnOthers(t, s.chain, n, m, s.tables.txList, submitted);
    }
    forall m | 1 <= m < |s.chain| && m in s'.tables.blocks && m !in base
      ensures s.chain[m].HasCodes() && Attributed(t, s.chain[m], s'.tables, submitted)
    {
      if m in s.tables.blocks {
        StepExtends(t, s, RunUpdate(n, alice, bob));
        StaysAttributed(t, s.chain[m], s.tables, s'.tables, submitted, submitted);
      } else {
        FreeKeys(t, s.chain, s.tables, n);
        UpdateAttributes(t, b, alice, bob, s.tables, submitted);
      }
    }
  }

  lemma AgreeOnOthers(
    t: int, chain: seq<Block>, n: nat, m: nat, txList: map<TxId, PeerTx>, submitted: map<TxId, PeerTx>)
    requires Regular(t, submitted, chain) && 1 <= n < |chain| && 1 <= m < |chain| && m != n
    requires AgreeOn(txList, submitted, AllIds(chain[m]))
    ensures AgreeOn(txList - AllIds(chain[n]), submitted, AllIds(chain[m]))
  {
    forall id | id in AllIds(chain[m]) && id in AllIds(chain[n])
      ensures id !in submitted
    {
      var a, b := if m < n then m else n, if m < n then n else m;
      assert ShareNoAwaited(submitted, chain[a], chain[b]);
      assert id in AllIds(chain[a]) * AllIds(chain[b]);
    }
  }

  lemma FreeKeys(t: int, chain: seq<Block>, tables: Tables, n: nat)
    requires Numbered(chain) && Mirrors(t, chain, tables) && KeysUnique(t, chain)
    requires 0 < n < |chain| && SliceSized(chain[n]) && n !in tables.blocks
    ensures forall i | IsRow(chain[n], i) :: Index(n, t, i) !in tables.txs
  {
    forall i | IsRow(chain[n], i)
      ensures Index(n, t, i) !in tables.txs
    {
      MirroredRowIsOwn(t, chain, tables, n, i);
    }
  }

  lemma StepKeepsTrace(t: int, s: State, step: Step, submitted: map<TxId, PeerTx>, base: set<nat>)
    requires Traced(t, s, submitted, base) && Enabled(s, step) && (step.Submit? ==> !Holds(s.chain, step.id))
    requires Mirrors(t, s.chain, s.tables)
    requires Regular(t, WithSubmission(submitted, step), Next(t, s, step).chain)
    requires forall b <- Next(t, s, step).chain :: SliceSized(b)
    ensures Traced(t, Next(t, s, step), WithSubmission(submitted, step), base)
  {
    match step
    case Commit(b) => CommitKeepsTrace(t, s, b, submitted, base);
    case Submit(id, tx) => SubmitKeepsTrace(t, s, id, tx, submitted, base);
    case RunUpdate(n, alice, bob) =>
      if n != 0 {
        RunUpdateKeepsTrace(t, s, n, alice, bob, submitted, base);
      } else {
        assert s.chain[0].number == 0;
      }
    case _ =>
  }

  lemma {:induction false} SubmissionsGrow(t: int, s: State, steps: seq<Step>, submitted: map<TxId, PeerTx>)
    ensures submitted.Keys <= Submissions(t, s, steps, submitted).Keys
    decreases |steps|
  {
    if steps != [] {
      var step := steps[0];
      if Enabled(s, step) {
        SubmissionsGrow(t, Next(t, s, step), steps[1..], WithSubmission(submitted, step));
      } else {
        SubmissionsGrow(t, s, steps[1..], submitted);
      }
    }
  }

  lemma RegularBefore(t: int, l: map<TxId, PeerTx>, l': map<TxId, PeerTx>, chain: seq<Block>, chain': seq<Block>)
    requires Regular(t, l', chain') && l.Keys <= l'.Keys && chain <= chain'
    ensures Regular(t, l, chain)
  {
    forall a, b | 1 <= a < b < |chain|
      ensures ShareNoAwaited(l, chain[a], chain[b])
    {
      assert ShareNoAwaited(l', chain'[a], chain'[b]);
    }
  }

  lemma {:induction false} RunKeepsTrace(
    t: int, s: State, steps: seq<Step>, submitted: map<TxId, PeerTx>, base: set<nat>)
    requires Numbered(s.chain) && Mirrors(t, s.chain, s.tables)
    requires Traced(t, s, submitted, base) && Causal(t, s, steps)
    requires Regular(t, Submissions(t, s, steps, submitted), Exec(t, s, steps).chain)
    requires forall b <- Exec(t, s, steps).chain :: SliceSized(b)
    ensures Traced(t, Exec(t, s, steps), Submissions(t, s, steps, submitted), base)
    decreases |steps|
  {
    if steps != [] {
      var step := steps[0];
      if Enabled(s, step) {
        var s1, submitted1 := Next(t, s, step), WithSubmission(submitted, step);
        ChainGrows(t, s1, steps[1..]);
        SubmissionsGrow(t, s1, steps[1..], submitted1);
        RegularBefore(t, submitted1, Submissions(t, s, steps, submitted), s1.chain, Exec(t, s, steps).chain);
        StepMirrors(t, s, step);
        SlicesBefore(s1.chain, Exec(t, s, steps).chain);
        StepKeepsTrace(t, s, step, submitted, base);
        RunKeepsTrace(t, s1, steps[1..], submitted1, base);
      } else {
        RunKeepsTrace(t, s, steps[1..], submitted, base);
      }
    }
  }

  lemma SlicesBefore(chain: seq<Block>, chain': seq<Block>)
    requires chain <= chain' && forall b <- chain' :: SliceSized(b)
    ensures forall b <- chain :: SliceSized(b)
  {
    forall b | b in chain
      ensures b in chain'
    {
      var i :| 0 <= i < |chain| && chain[i] == b;
      assert chain'[i] == b;
    }
  }

  // ----- equal tables -----

  /** What both runs submit about the transactions of the chain. */
  ghost predicate SubmitAlike(chain: seq<Block>, l: map<TxId, PeerTx>, l': map<TxId, PeerTx>) {
    forall n | 1 <= n < |chain| :: AgreeOn(l, l', AllIds(chain[n]))
  }

  lemma RegularAlike(t: int, chain: seq<Block>, l: map<TxId, PeerTx>, l': map<TxId, PeerTx>)
    requires Regular(t, l, chain) && SubmitAlike(chain, l, l')
    ensures Regular(t, l', chain)
  {
    forall a, b | 1 <= a < b < |chain|
      ensures ShareNoAwaited(l', chain[a], chain[b])
    {
      assert ShareNoAwaited(l, chain[a], chain[b]);
    }
  }

  /** A state and the tables it started from, which hold the blocks `base`. */
  ghost predicate Grown(t: int, start: Tables, end: State, submitted: map<TxId, PeerTx>) {
    && Numbered(end.chain) && Mirrors(t, end.chain, end.tables) && Extends(start, end.tables)
    && Traced(t, end, submitted, start.blocks.Keys)
    && forall n <- start.blocks :: 1 <= n < |end.chain| && AllIndexes(end.chain[n], t) <= start.txs.Keys
  }

  lemma TraceStarts(t: int, s: State)
    ensures Traced(t, s, s.tables.txList, s.tables.blocks.Keys)
  {
  }

  lemma StartKeepsKeys(t: int, start: Tables, chain: seq<Block>, chain': seq<Block>)
    requires Mirrors(t, chain, start) && chain <= chain'
    ensures forall n <- start.blocks :: 1 <= n < |chain'| && AllIndexes(chain'[n], t) <= start.txs.Keys
  {
  }

  lemma RunGrows(t: int, s: State, steps: seq<Step>)
    requires Numbered(s.chain) && Mirrors(t, s.chain, s.tables) && Causal(t, s, steps)
    requires Regular(t, Submissions(t, s, steps, s.tables.txList), Exec(t, s, steps).chain)
    requires forall b <- Exec(t, s, steps).chain :: SliceSized(b)
    ensures Grown(t, s.tables, Exec(t, s, steps), Submissions(t, s, steps, s.tables.txList))
  {
    TraceStarts(t, s);
    RunMirrors(t, s, steps);
    RowsAreKept(t, s, steps);
    RunKeepsTrace(t, s, steps, s.tables.txList, s.tables.blocks.Keys);
    ChainGrows(t, s, steps);
    StartKeepsKeys(t, s.tables, s.chain, Exec(t, s, steps).chain);
  }

  /** A row of an earlier block is the row of the start; that of any other block shows what was submitted. */
  ghost predicate RowTraced(t: int, start: Tables, e: State, l: map<TxId, PeerTx>, n: nat, i: nat) {
    && n < |e.chain| && IsRow(e.chain[n], i)
    && var k := Index(n, t, i);
    && k in e.tables.txs
    && if n in start.blocks then k in start.txs && e.tables.txs[k] == start.txs[k]
       else e.chain[n].HasCodes() && e.tables.txs[k] == RowUnder(e.chain[n], l, i)
  }

  lemma RowAt(t: int, start: Tables, e: State, l: map<TxId, PeerTx>, n: nat, i: nat)
    requires Grown(t, start, e, l) && n in e.tables.blocks && n < |e.chain| && IsRow(e.chain[n], i)
    ensures RowTraced(t, start, e, l, n, i)
  {
    assert n in start.blocks ==> Index(n, t, i) in AllIndexes(e.chain[n], t);
  }

  lemma RowOrigin(t: int, start: Tables, e: State, l: map<TxId, PeerTx>, k: nat) returns (n: nat, i: nat)
    requires Grown(t, start, e, l) && k in e.tables.txs
    ensures RowFrom(t, e.chain, e.tables, k, n, i)
  {
    n, i :| RowFrom(t, e.chain, e.tables, k, n, i);
  }

  lemma SameRow(
    t: int, start: Tables, e: State, l: map<TxId, PeerTx>, start': Tables, e': State, l': map<TxId, PeerTx>,
    n: nat, i: nat)
    requires RowTraced(t, start, e, l, n, i) && RowTraced(t, start', e', l', n, i) && n > 0
    requires start.blocks.Keys == start'.blocks.Keys && start.txs == start'.txs
    requires e.chain == e'.chain && SubmitAlike(e.chain, l, l')
    ensures e.tables.txs[Index(n, t, i)] == e'.tables.txs[Index(n, t, i)]
  {
    if n in start.blocks {
      assert n in start'.blocks.Keys;
    } else {
      assert n !in start'.blocks.Keys;
      SameAttribution(e.chain[n], l, l');
    }
  }

  lemma RowIsTheSame(
    t: int, start: Tables, e: State, l: map<TxId, PeerTx>, start': Tables, e': State, l': map<TxId, PeerTx>, k: nat)
    requires Grown(t, start, e, l) && Grown(t, start', e', l')
    requires start.blocks.Keys == start'.blocks.Keys && start.txs == start'.txs
    requires e.chain == e'.chain && SubmitAlike(e.chain, l, l') && e.tables.blocks.Keys == e'.tables.blocks.Keys
    requires k in e.tables.txs
    ensures k in e'.tables.txs && e.tables.txs[k] == e'.tables.txs[k]
  {
    var n, i := RowOrigin(t, start, e, l, k);
    assert n in e'.tables.blocks.Keys && n > 0;
    RowAt(t, start, e, l, n, i);
    RowAt(t, start', e', l', n, i);
    SameRow(t, start, e, l, start', e', l', n, i);
  }

  /** The block row of the start, or a new one with the type that was submitted; the balances are left out. */
  ghost predicate BlockRowTraced(start: Tables, e: State, l: map<TxId, PeerTx>, n: nat) {
    && n in e.tables.blocks && 1 <= n < |e.chain|
    && var row, b := e.tables.blocks[n], e.chain[n];
    && if n in start.blocks then row == start.blocks[n]
       else b.HasCodes() && BlockRowFrom(b, row) && row.blockType == TypeUnder(b, l)
  }

  lemma BlockRowAt(t: int, start: Tables, e: State, l: map<TxId, PeerTx>, n: nat)
    requires Grown(t, start, e, l) && n in e.tables.blocks
    ensures BlockRowTraced(start, e, l, n)
  {
  }

  lemma SameBlockRow(
    start: Tables, e: State, l: map<TxId, PeerTx>, start': Tables, e': State, l': map<TxId, PeerTx>, n: nat)
    requires BlockRowTraced(start, e, l, n) && BlockRowTraced(start', e', l', n)
    requires Erased(start).blocks == Erased(start').blocks
    requires e.chain == e'.chain && SubmitAlike(e.chain, l, l')
    ensures Erased(e.tables).blocks[n] == Erased(e'.tables).blocks[n]
  {
    if n in start.blocks {
      assert n in Erased(start).blocks && n in Erased(start').blocks;
      assert Erased(start).blocks[n] == Erased(start').blocks[n];
    } else {
      assert n !in Erased(start').blocks;
      SameAttribution(e.chain[n], l, l');
    }
  }

  /**
   Two runs from the same tables that submit the same transactions before the chain holds them, each
   awaited in one block, and that end with the same chain and the same stored blocks end with the
   same tables, balances aside: peers, types and statuses included.
   */
  lemma CausalRunsAgree(t: int, s: State, steps: seq<Step>, s': State, steps': seq<Step>)
    requires Numbered(s.chain) && Mirrors(t, s.chain, s.tables) && Causal(t, s, steps)
    requires Numbered(s'.chain) && Mirrors(t, s'.chain, s'.tables) && Causal(t, s', steps')
    requires Erased(s.tables).blocks == Erased(s'.tables).blocks && s.tables.txs == s'.tables.txs
    requires Exec(t, s, steps).chain == Exec(t, s', steps').chain
    requires var l, l' := Submissions(t, s, steps, s.tables.txList), Submissions(t, s', steps', s'.tables.txList);
             Regular(t, l, Exec(t, s, steps).chain) && SubmitAlike(Exec(t, s, steps).chain, l, l')
    requires forall b <- Exec(t, s, steps).chain :: SliceSized(b)
    requires Exec(t, s, steps).tables.blocks.Keys == Exec(t, s', steps').tables.blocks.Keys
    ensures Exec(t, s, steps).tables.txs == Exec(t, s', steps').tables.txs
    ensures Erased(Exec(t, s, steps).tables).blocks == Erased(Exec(t, s', steps').tables).blocks
  {
    var l, l' := Submissions(t, s, steps, s.tables.txList), Submissions(t, s', steps', s'.tables.txList);
    var e, e' := Exec(t, s, steps), Exec(t, s', steps');
    RegularAlike(t, e.chain, l, l');
    RunGrows(t, s, steps);
    RunGrows(t, s', steps');
    TablesConverge(t, e.chain, e.tables, e'.tables);
    SameStart(s.tables, s'.tables);
    SameRows(t, s.tables, e, l, s'.tables, e', l');
    SameBlockRows(t, s.tables, e, l, s'.tables, e', l');
  }

  lemma SameStart(start: Tables, start': Tables)
    requires Erased(start).blocks == Erased(start').blocks
    ensures start.blocks.Keys == start'.blocks.Keys
  {
    assert start.blocks.Keys == Erased(start).blocks.Keys == Erased(start').blocks.Keys == start'.blocks.Keys;
  }

  lemma SameRows(
    t: int, start: Tables, e: State, l: map<TxId, PeerTx>, start': Tables, e': State, l': map<TxId, PeerTx>)
    requires Grown(t, start, e, l) && Grown(t, start', e', l')
    requires start.blocks.Keys == start'.blocks.Keys && start.txs == start'.txs
    requires e.chain == e'.chain && SubmitAlike(e.chain, l, l') && e.tables.blocks.Keys == e'.tables.blocks.Keys
    ensures forall k <- e.tables.txs :: k in e'.tables.txs && e.tables.txs[k] == e'.tables.txs[k]
  {
    forall k | k in e.tables.txs
      ensures k in e'.tables.txs && e.tables.txs[k] == e'.tables.txs[k]
    {
      RowIsTheSame(t, start, e, l, start', e', l', k);
    }
  }

  lemma SameBlockRows(
    t: int, start: Tables, e: State, l: map<TxId, PeerTx>, start': Tables, e': State, l': map<TxId, PeerTx>)
    requires Grown(t, start, e, l) && Grown(t, start', e', l')
    requires Erased(start).blocks == Erased(start').blocks
    requires e.chain == e'.chain && SubmitAlike(e.chain, l, l') && e.tables.blocks.Keys == e'.tables.blocks.Keys
    ensures Erased(e.tables).blocks == Erased(e'.tables).blocks
  {
    forall n | n in e.tables.blocks
      ensures n in e'.tables.blocks && Erased(e.tables).blocks[n] == Erased(e'.tables).blocks[n]
    {
      assert n in e'.tables.blocks.Keys;
      BlockRowAt(t, start, e, l, n);
      BlockRowAt(t, start', e', l', n);
      SameBlockRow(start, e, l, start', e', l', n);
    }
    assert Erased(e.tables).blocks.Keys == Erased(e'.tables).blocks.Keys;
  }
}
