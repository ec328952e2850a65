/** What a run leaves on disk, and what a restart makes of it (src/transaction_processor.rs, src/node.rs). */
module Restart {
  import opened Types
  import opened Paths
  import opened Dag
  import opened Processor
  import opened Runs
  import R = Rebuilding
  import L = LedgerModel
  import Validation

  // ---- from the disk to the DAG ----

  /** The disk holds some of the stored transactions. */
  ghost predicate Backed(txs: Transactions, disk: Transactions) {
    forall id :: id in disk ==> id in txs && txs[id] == disk[id]
  }

  /** The list read back from the disk, in any order. */
  ghost predicate ReadBack(disk: Transactions, list: seq<Transaction>) {
    forall tx :: tx in list <==> tx.id in disk && disk[tx.id] == tx
  }

  /** The transaction and all its stored ancestors are on disk. */
  ghost predicate Survives(txs: Transactions, disk: Transactions, id: TransactionId) {
    id in disk && forall a :: StrictAncestor(txs, a, id) && a in txs ==> a in disk
  }

  lemma ParentSurvives(txs: Transactions, disk: Transactions, p: TransactionId, id: TransactionId)
    requires Survives(txs, disk, id) && IsParent(txs, p, id) && p in txs
    ensures Survives(txs, disk, p)
  {
    assert Above(txs, 0, p, p) && Above(txs, 1, id, p);
    assert StrictAncestor(txs, p, id);
    forall a | StrictAncestor(txs, a, p) && a in txs ensures a in disk {
      var n: nat :| n >= 1 && Above(txs, n, p, a);
      assert Above(txs, n + 1, id, a);
    }
  }

  lemma ReadBackIsHashed(d: DagState, disk: Transactions, list: seq<Transaction>)
    requires ValidDag(d) && Backed(d.transactions, disk) && ReadBack(disk, list)
    ensures R.HashedIds(list) && forall tx :: tx in list ==> R.Stored(d, tx)
  {
    GenesisIsNotStored(d.transactions);
  }

  /** What came back and had its turn is stored again. */
  lemma SettledAgain(d: DagState, disk: Transactions, list: seq<Transaction>, e: DagState, tx: Transaction)
    requires ValidDag(d) && Backed(d.transactions, disk) && ReadBack(disk, list)
    requires R.DrawnFrom(e, list) && tx in list && R.Settled(e, tx)
    ensures R.Stored(e, tx)
  {
    ReadBackIsHashed(d, disk, list);
    if !R.Stored(e, tx) {
      var other :| R.Stored(e, other) && R.Clash(tx, other);
      R.StoredNeverClash(d, tx, other);
    }
  }

  lemma {:induction false} SurvivorIsStored(d: DagState, disk: Transactions, list: seq<Transaction>,
                                            order: seq<Transaction>, i: nat)
    requires ValidDag(d) && Backed(d.transactions, disk) && ReadBack(disk, list)
    requires InsertionOrder(d.transactions, order) && i < |order| && Survives(d.transactions, disk, order[i].id)
    ensures R.Stored(R.Rebuild(EMPTY_DAG, list).dag, order[i])
    decreases i
  {
    var txs, tx, r := d.transactions, order[i], R.Rebuild(EMPTY_DAG, list);
    ReadBackIsHashed(d, disk, list);
    R.RebuildFromEmpty(list);
    forall p | Earlier(order, i, p) && IsParent(txs, p, tx.id) ensures ParentKnown(r.dag.transactions, p) {
      if p != GENESIS {
        var j :| 0 <= j < i && order[j].id == p;
        ParentSurvives(txs, disk, p, tx.id);
        SurvivorIsStored(d, disk, list, order, j);
      }
    }
    assert Earlier(order, i, tx.parents.first) && Earlier(order, i, tx.parents.second);
    assert IsParent(txs, tx.parents.first, tx.id) && IsParent(txs, tx.parents.second, tx.id);
    assert tx in list && R.Ready(r.dag.transactions, tx);
    SettledAgain(d, disk, list, r.dag, tx);
  }

  lemma ParentIsKnown(txs: Transactions, p: TransactionId, c: TransactionId)
    requires Grown(txs) && IsParent(txs, p, c)
    ensures ParentKnown(txs, p)
  {
    ParentsAreKnown(txs);
  }

  /** A smaller grown store holds every ancestor that the larger one knows. */
  lemma {:induction false} GrownHoldsAncestors(txs: Transactions, again: Transactions, n: nat, id: TransactionId,
                                               a: TransactionId)
    requires GENESIS !in txs && Grown(again) && forall v :: v in again ==> v in txs && txs[v] == again[v]
    requires id in again && a in txs && Above(txs, n, id, a)
    ensures a in again
  {
    if n > 0 {
      var p := if Above(txs, n - 1, txs[id].parents.first, a) then txs[id].parents.first else txs[id].parents.second;
      ParentIsKnown(again, p, id);
      assert p != GENESIS;
      GrownHoldsAncestors(txs, again, n - 1, p, a);
    }
  }

  lemma StoredSurvives(d: DagState, disk: Transactions, list: seq<Transaction>, id: TransactionId)
    requires ValidDag(d) && Backed(d.transactions, disk) && ReadBack(disk, list)
    requires id in R.Rebuild(EMPTY_DAG, list).dag.transactions
    ensures Survives(d.transactions, disk, id)
  {
    ReadBackIsHashed(d, disk, list);
    R.RebuildFromEmpty(list);
    var txs, again := d.transactions, R.Rebuild(EMPTY_DAG, list).dag.transactions;
    forall v | v in again ensures v in disk && v in txs && txs[v] == again[v] {
      assert again[v] in list;
    }
    GenesisIsNotStored(txs);
    forall a | StrictAncestor(txs, a, id) && a in txs ensures a in disk {
      var n: nat :| n >= 1 && Above(txs, n, id, a);
      GrownHoldsAncestors(txs, again, n, id, a);
    }
  }

  /** A restart stores exactly the transactions that are on disk with all their ancestors;
    * what is on disk without them is left as orphans. */
  lemma RestartKeepsSurvivors(d: DagState, disk: Transactions, list: seq<Transaction>)
    requires ValidDag(d) && Backed(d.transactions, disk) && ReadBack(disk, list)
    ensures var r := R.Rebuild(EMPTY_DAG, list);
            && ValidDag(r.dag)
            && (forall tx :: R.Stored(r.dag, tx) <==> R.Stored(d, tx) && Survives(d.transactions, disk, tx.id))
            && (forall tx :: tx in r.pending <==> tx in list && !Survives(d.transactions, disk, tx.id))
  {
    var r := R.Rebuild(EMPTY_DAG, list);
    ReadBackIsHashed(d, disk, list);
    R.RebuildFromEmpty(list);
    var order: seq<Transaction> :| InsertionOrder(d.transactions, order);
    forall tx ensures R.Stored(r.dag, tx) <==> R.Stored(d, tx) && Survives(d.transactions, disk, tx.id) {
      if R.Stored(r.dag, tx) {
        StoredSurvives(d, disk, list, tx.id);
      }
      if R.Stored(d, tx) && Survives(d.transactions, disk, tx.id) {
        var i :| 0 <= i < |order| && order[i].id == tx.id;
        SurvivorIsStored(d, disk, list, order, i);
      }
    }
    forall tx ensures tx in r.pending <==> tx in list && !R.Stored(r.dag, tx) {
      R.OrphansLackAParent(list, tx);
      if R.Stored(r.dag, tx) {
        R.StoredIsReady(r.dag, tx);
      } else if tx in list && R.Settled(r.dag, tx) {
        SettledAgain(d, disk, list, r.dag, tx);
      }
    }
  }

  /** The DAG comes back as it was exactly when the disk holds all of it. */
  lemma RestartIsCompleteExactly(d: DagState, disk: Transactions, list: seq<Transaction>)
    requires ValidDag(d) && Backed(d.transactions, disk) && ReadBack(disk, list)
    ensures R.SameShape(R.Rebuild(EMPTY_DAG, list).dag, d) <==> disk == d.transactions
    ensures disk == d.transactions ==> R.Rebuild(EMPTY_DAG, list).pending == []
  {
    RestartKeepsSurvivors(d, disk, list);
    var r := R.Rebuild(EMPTY_DAG, list);
    if disk == d.transactions {
      R.RebuildRestoresTheDag(d, list);
    }
    if R.SameShape(r.dag, d) {
      StoredUnderOwnId(d.transactions);
      forall id | id in d.transactions ensures id in disk {
        assert R.Stored(r.dag, d.transactions[id]);
      }
    }
  }

  lemma StoredUnderOwnId(txs: Transactions)
    requires Grown(txs)
    ensures forall id :: id in txs ==> txs[id].id == id
  {
    var order: seq<Transaction> :| InsertionOrder(txs, order);
    forall id | id in txs ensures txs[id].id == id {
      var i :| 0 <= i < |order| && order[i].id == id;
    }
  }

  // ---- from a run to the disk ----

  /** The write inserts its transaction into the DAG, yet the transaction does not reach the disk. */
  ghost predicate FailsLate(m: Machine, e: Event) {
    Writes(m, e) &&
    var c := m.inFlight[e.slot];
    EarlyError(m.node, c.tx, e.env).None? && !(PassesLate(m.node, c, e.env) && e.stored)
  }

  ghost predicate NeverFailsLate(v: Validation.Validator, m: Machine, events: seq<Event>)
    requires v.difficulty <= 255
  {
    events == []
    || (NeverFailsLate(v, m, events[..|events| - 1])
        && !FailsLate(ExecAll(v, m, events[..|events| - 1]), events[|events| - 1]))
  }

  lemma StepBacks(v: Validation.Validator, m: Machine, e: Event)
    requires v.difficulty <= 255 && Backed(m.node.dag.transactions, m.disk) && Pooled(m.node)
    ensures var m' := Exec(v, m, e);
            && Backed(m'.node.dag.transactions, m'.disk)
            && (m'.disk == m'.node.dag.transactions <==> m.disk == m.node.dag.transactions && !FailsLate(m, e))
  {
    StepKeepsPooled(v, m, e);
    if Writes(m, e) {
      var c := m.inFlight[e.slot];
      WriteOutcome(m.node, c, e.env);
      RollbackIsExact(m.node, c, e.env);
      if EarlyError(m.node, c.tx, e.env).None? {
        DiskGrows(m.node.dag.transactions, m.disk, c.tx, PassesLate(m.node, c, e.env) && e.stored);
      }
    }
  }

  lemma DiskGrows(txs: Transactions, disk: Transactions, tx: Transaction, stored: bool)
    requires Backed(txs, disk) && tx.id !in txs
    ensures var (txs', disk') := (txs[tx.id := tx], if stored then disk[tx.id := tx] else disk);
            Backed(txs', disk') && (disk' == txs' <==> disk == txs && stored)
  {
    var txs', disk' := txs[tx.id := tx], if stored then disk[tx.id := tx] else disk;
    if disk' == txs' {
      assert tx.id in disk';
      forall id | id in txs ensures id in disk {
        assert id in txs';
      }
    }
  }

  lemma {:induction false} RunsBack(v: Validation.Validator, m: Machine, events: seq<Event>)
    requires v.difficulty <= 255 && m.disk == m.node.dag.transactions && Pooled(m.node)
    ensures var m' := ExecAll(v, m, events);
            && Backed(m'.node.dag.transactions, m'.disk)
            && (m'.disk == m'.node.dag.transactions <==> NeverFailsLate(v, m, events))
  {
    if events != [] {
      RunsBack(v, m, events[..|events| - 1]);
      RunsStayPooled(v, m, events[..|events| - 1]);
      StepBacks(v, ExecAll(v, m, events[..|events| - 1]), events[|events| - 1]);
    }
  }

  /** A run survives a restart, whatever the order the disk is read in, exactly when no call of it failed late. */
  lemma RunSurvivesRestart(v: Validation.Validator, m: Machine, events: seq<Event>, list: seq<Transaction>)
    requires v.difficulty <= 255 && InStep(m) && HashedIds(events) && m.disk == m.node.dag.transactions
    requires ReadBack(ExecAll(v, m, events).disk, list)
    ensures var m' := ExecAll(v, m, events);
            && (R.SameShape(R.Rebuild(EMPTY_DAG, list).dag, m'.node.dag) <==> NeverFailsLate(v, m, events))
            && (forall tx :: R.Stored(R.Rebuild(EMPTY_DAG, list).dag, tx)
                             <==> R.Stored(m'.node.dag, tx) && Survives(m'.node.dag.transactions, m'.disk, tx.id))
  {
    RunsStayInStep(v, m, events);
    RunsBack(v, m, events);
    RestartIsCompleteExactly(ExecAll(v, m, events).node.dag, ExecAll(v, m, events).disk, list);
    RestartKeepsSurvivors(ExecAll(v, m, events).node.dag, ExecAll(v, m, events).disk, list);
  }

  // ---- what a restart sets free ----

  /** No sender but the faucet has a transaction on disk beyond its ledger nonce. */
  ghost predicate DiskKeepsPace(m: Machine) {
    forall id :: id in m.disk && m.disk[id].sender != FAUCET_ADDRESS ==>
      m.disk[id].accountNonce <= L.Nonce(m.node.ledger, m.disk[id].sender)
  }

  lemma WriteKeepsPace(s: NodeState, c: Call, env: Environment)
    requires OrderOk(s, c, env)
    ensures forall a :: L.Nonce(s.ledger, a) <= L.Nonce(WritePhase(s, c, env).0.ledger, a)
    ensures WritePhase(s, c, env).1.Ok? ==> c.tx.accountNonce <= L.Nonce(WritePhase(s, c, env).0.ledger, c.tx.sender)
  {
    WriteOutcome(s, c, env);
  }

  lemma StepKeepsPace(v: Validation.Validator, m: Machine, e: Event)
    requires v.difficulty <= 255 && DiskKeepsPace(m) && Pooled(m.node)
    ensures DiskKeepsPace(Exec(v, m, e))
  {
    StepKeepsPooled(v, m, e);
    if Writes(m, e) {
      WriteKeepsPace(m.node, m.inFlight[e.slot], e.env);
    }
  }

  lemma {:induction false} RunsKeepPace(v: Validation.Validator, m: Machine, events: seq<Event>)
    requires v.difficulty <= 255 && DiskKeepsPace(m) && Pooled(m.node)
    ensures DiskKeepsPace(ExecAll(v, m, events))
  {
    if events != [] {
      RunsKeepPace(v, m, events[..|events| - 1]);
      RunsStayPooled(v, m, events[..|events| - 1]);
      StepKeepsPace(v, ExecAll(v, m, events[..|events| - 1]), events[|events| - 1]);
    }
  }

  /** After a restart the next nonce of every sender but the faucet is free in the DAG again,
    * also that of a sender the pool has refused. */
  lemma RestartFreesSenders(v: Validation.Validator, m: Machine, events: seq<Event>, list: seq<Transaction>,
                            a: Address, next: u64)
    requires v.difficulty <= 255 && InStep(m) && HashedIds(events) && m.disk == m.node.dag.transactions && DiskKeepsPace(m)
    requires ReadBack(ExecAll(v, m, events).disk, list)
    requires a != FAUCET_ADDRESS && next == L.Nonce(ExecAll(v, m, events).node.ledger, a) + 1
    ensures !HasSenderConflict(R.Rebuild(EMPTY_DAG, list).dag.transactions, a, next)
  {
    RunsKeepPace(v, m, events);
    RunsStayInStep(v, m, events);
    RunsBack(v, m, events);
    var m' := ExecAll(v, m, events);
    ReadBackIsHashed(m'.node.dag, m'.disk, list);
    R.RebuildFromEmpty(list);
    var again := R.Rebuild(EMPTY_DAG, list).dag.transactions;
    forall id | id in again && again[id].sender == a ensures again[id].accountNonce != next {
      assert again[id] in list;
      assert again[id].id in m'.disk && m'.disk[again[id].id] == again[id];
    }
  }
}
