/** Syncing again, and syncing with the answers in another order. */
module SyncAgain {
  import opened Strings
  import opened Lifecycle
  import opened Operations
  import opened Sync

  /** The rows of a finished sync, before and after the deploy look-up, are about what they were about. */
  lemma Subjects(ops: seq<Op>, env: Env, imported: seq<Op>, i: nat)
    requires Imported(ops, env, imported) && i < |ops|
    ensures |ops| <= |imported| && SameSubject(Settled(imported, env)[i], ops[i])
  {
    hide DeriveImport, StatusFor;
    var seen :| Progress(ops, env, seen, imported) && Complete(ops, env, seen);
    assert imported[i] == RowAfter(ops, env, seen, i);
    hide Progress, Complete, FirstOfPair;
  }

  lemma NewSubject(ops: seq<Op>, env: Env, imported: seq<Op>, k: nat)
    requires Imported(ops, env, imported) && |ops| <= k < |imported|
    ensures IsNew(ops, env, imported[k])
    ensures exists i :: 0 <= i < |ops| && ops[i].tr == Settled(imported, env)[k].tr
    ensures PairOf(Settled(imported, env)[k]) == PairOf(imported[k])
  {
    hide DeriveImport, StatusFor, Reconcile;
    var seen :| Progress(ops, env, seen, imported) && Complete(ops, env, seen);
  }

  /** Nothing is left to be added. */
  lemma NoneMissing(ops: seq<Op>, env: Env, imported: seq<Op>, x: Op)
    requires Imported(ops, env, imported)
    ensures !IsNew(Settled(imported, env), env, x)
  {
    var after := Settled(imported, env);
    if IsNew(after, env, x) {
      hide DeriveImport, StatusFor, Reconcile, Progress;
      var i :| 0 <= i < |after| && FirstOfTr(after, i) && after[i].tr == x.tr
               && x == Reconcile(NewOp(after[i], x.tenant), StatusFor(env, x.tr, x.tenant).value);
      FirstIsOld(ops, env, imported, i);
      Subjects(ops, env, imported, i);
      assert NewOp(after[i], x.tenant) == NewOp(ops[i], x.tenant);
      if HasPair(ops, PairOf(x)) { PairsStay(ops, env, imported, PairOf(x)); }
      FirstOfTrBefore(ops, env, imported, i);
      assert IsNew(ops, env, x);
      NewIsThere(ops, env, imported, x);
      assert false;
    }
  }

  lemma FirstIsOld(ops: seq<Op>, env: Env, imported: seq<Op>, i: nat)
    requires Imported(ops, env, imported) && i < |imported| && FirstOfTr(Settled(imported, env), i)
    ensures i < |ops|
  {
    if |ops| <= i {
      NewSubject(ops, env, imported, i);
      var j :| 0 <= j < |ops| && ops[j].tr == Settled(imported, env)[i].tr;
      Subjects(ops, env, imported, j);
    }
  }

  lemma FirstOfTrBefore(ops: seq<Op>, env: Env, imported: seq<Op>, i: nat)
    requires Imported(ops, env, imported) && i < |ops| && i < |imported| && FirstOfTr(Settled(imported, env), i)
    ensures FirstOfTr(ops, i)
  {
    hide Imported;
    Subjects(ops, env, imported, i);
    forall j | 0 <= j < i ensures ops[j].tr != ops[i].tr {
      Subjects(ops, env, imported, j);
    }
  }

  lemma PairsStay(ops: seq<Op>, env: Env, imported: seq<Op>, pair: Pair)
    requires Imported(ops, env, imported) && HasPair(ops, pair)
    ensures HasPair(Settled(imported, env), pair)
  {
    hide Imported;
    var i :| 0 <= i < |ops| && PairOf(ops[i]) == pair;
    Subjects(ops, env, imported, i);
    assert PairOf(Settled(imported, env)[i]) == pair;
  }

  lemma NewIsThere(ops: seq<Op>, env: Env, imported: seq<Op>, x: Op)
    requires Imported(ops, env, imported) && IsNew(ops, env, x)
    ensures HasPair(Settled(imported, env), PairOf(x))
  {
    hide DeriveImport, StatusFor, Reconcile, Settle, NewOp;
    var seen :| Progress(ops, env, seen, imported) && Complete(ops, env, seen);
    assert PairOf(x) in seen;
    assert x in imported[|ops|..];
    var k :| 0 <= k < |imported[|ops|..]| && imported[|ops|..][k] == x;
    NewSubject(ops, env, imported, |ops| + k);
  }

  /** A row of a finished sync, looked at once more, stays as it is. */
  lemma RowSettledDown(ops: seq<Op>, env: Env, imported: seq<Op>, i: nat)
    requires Imported(ops, env, imported) && i < |imported|
    ensures var row := Settled(imported, env)[i];
            (FirstOfPair(Settled(imported, env), i) && StatusFor(env, row.tr, row.tenant).Some? ==>
               Reconcile(row, StatusFor(env, row.tr, row.tenant).value) == row)
            && Settle(row, Answer(env, row)) == row
  {
    hide DeriveImport, StatusFor, NewOp, Imported, Reconcile, Settle;
    var after := Settled(imported, env);
    var row := after[i];
    SettleKeepsSubject(imported[i], Answer(env, imported[i]));
    SettleTwice(imported[i], Answer(env, imported[i]));
    var status := StatusFor(env, row.tr, row.tenant);
    if FirstOfPair(after, i) && status.Some? {
      if i < |ops| {
        Subjects(ops, env, imported, i);
        OldRowReconciled(ops, env, imported, i);
        LookingTwice(ops[i], status.value, Answer(env, imported[i]));
      } else {
        NewRowReconciled(ops, env, imported, i);
      }
    }
  }

  lemma NewRowReconciled(ops: seq<Op>, env: Env, imported: seq<Op>, i: nat)
    requires Imported(ops, env, imported) && |ops| <= i < |imported|
    ensures var row := Settled(imported, env)[i];
            StatusFor(env, row.tr, row.tenant).Some? && Reconcile(row, StatusFor(env, row.tr, row.tenant).value) == row
  {
    hide DeriveImport, StatusFor;
    NewSubject(ops, env, imported, i);
    var x := imported[i];
    var j :| 0 <= j < |ops| && FirstOfTr(ops, j) && ops[j].tr == x.tr
             && x == Reconcile(NewOp(ops[j], x.tenant), StatusFor(env, x.tr, x.tenant).value);
    LookingTwice(NewOp(ops[j], x.tenant), StatusFor(env, x.tr, x.tenant).value, Answer(env, x));
  }

  lemma OldRowReconciled(ops: seq<Op>, env: Env, imported: seq<Op>, i: nat)
    requires Imported(ops, env, imported) && i < |ops| && i < |imported| && FirstOfPair(Settled(imported, env), i)
    requires StatusFor(env, ops[i].tr, ops[i].tenant).Some?
    ensures imported[i] == Reconcile(ops[i], StatusFor(env, ops[i].tr, ops[i].tenant).value)
  {
    hide DeriveImport, StatusFor, Reconcile;
    var seen :| Progress(ops, env, seen, imported) && Complete(ops, env, seen);
    assert imported[i] == RowAfter(ops, env, seen, i);
    Subjects(ops, env, imported, i);
    forall j | 0 <= j < i ensures PairOf(ops[j]) != PairOf(ops[i]) {
      Subjects(ops, env, imported, j);
    }
  }

  /** Against unchanged answers a second sync changes no row and no status, so it notifies nobody. */
  lemma SyncTwice(dr: Dr, ops: seq<Op>, env: Env, dr1: Dr, ops1: seq<Op>, dr2: Dr, ops2: seq<Op>)
    requires Synced(dr, ops, env, dr1, ops1) && Synced(dr1, ops1, env, dr2, ops2)
    ensures dr2 == dr1 && ops2 == ops1
  {
    RowsTwice(dr, ops, env, dr1, ops1, dr2, ops2);
    AggregateIdempotent(dr.status, Imports(ops1, dr.sourceTenant), Deploys(ops1, dr.sourceTenant));
  }

  lemma RowsTwice(dr: Dr, ops: seq<Op>, env: Env, dr1: Dr, ops1: seq<Op>, dr2: Dr, ops2: seq<Op>)
    requires Synced(dr, ops, env, dr1, ops1) && Synced(dr1, ops1, env, dr2, ops2)
    ensures ops2 == ops1
  {
    hide Imports, Deploys, Imported, Settle;
    if MaySync(dr) && MaySync(dr1) {
      var imported :| Imported(ops, env, imported) && ops1 == Settled(imported, env);
      var again :| Imported(ops1, env, again) && ops2 == Settled(again, env);
      NothingNew(ops, env, imported, again);
      forall i | 0 <= i < |ops1| ensures Settle(ops1[i], Answer(env, ops1[i])) == ops1[i] {
        RowSettledDown(ops, env, imported, i);
      }
      assert Settled(ops1, env) == ops1;
    }
  }

  lemma NothingNew(ops: seq<Op>, env: Env, imported: seq<Op>, again: seq<Op>)
    requires Imported(ops, env, imported) && Imported(Settled(imported, env), env, again)
    ensures again == Settled(imported, env)
  {
    var after := Settled(imported, env);
    if |again| > |after| {
      NewSubject(after, env, again, |after|);
      NoneMissing(ops, env, imported, again[|after|]);
    }
    forall i | 0 <= i < |after| ensures again[i] == after[i] {
      RowSettledDown(ops, env, imported, i);
      var seen :| Progress(after, env, seen, again) && Complete(after, env, seen);
      assert again[i] == RowAfter(after, env, seen, i);
    }
  }

  lemma SameRow(ops: seq<Op>, env: Env, a: seq<Op>, b: seq<Op>, i: nat)
    requires Imported(ops, env, a) && Imported(ops, env, b) && i < |ops|
    ensures i < |a| && i < |b| && a[i] == b[i]
  {
    hide DeriveImport, StatusFor, Reconcile;
    var seen :| Progress(ops, env, seen, a) && Complete(ops, env, seen);
    var seen' :| Progress(ops, env, seen', b) && Complete(ops, env, seen');
    assert a[i] == RowAfter(ops, env, seen, i) && b[i] == RowAfter(ops, env, seen', i);
  }

  lemma SameNew(ops: seq<Op>, env: Env, a: seq<Op>, b: seq<Op>, k: nat) returns (m: nat)
    requires Imported(ops, env, a) && Imported(ops, env, b) && |ops| <= k < |a|
    ensures |ops| <= m < |b| && b[m] == a[k]
  {
    hide DeriveImport, StatusFor, Reconcile, NewOp;
    var seen :| Progress(ops, env, seen, a) && Complete(ops, env, seen);
    var seen' :| Progress(ops, env, seen', b) && Complete(ops, env, seen');
    assert IsNew(ops, env, a[k]) && PairOf(a[k]) in seen';
    assert a[k] in b[|ops|..];
    m :| |ops| <= m < |b| && b[m] == a[k];
  }

  lemma SameSide(ops: seq<Op>, env: Env, a: seq<Op>, b: seq<Op>, x: Op)
    requires Imported(ops, env, a) && Imported(ops, env, b) && x in Settled(a, env)
    ensures x in Settled(b, env)
  {
    hide Imported, Settle;
    var k :| 0 <= k < |a| && Settled(a, env)[k] == x;
    if k < |ops| {
      SameRow(ops, env, a, b, k);
      assert Settled(b, env)[k] == x;
    } else {
      var m := SameNew(ops, env, a, b, k);
      assert Settled(b, env)[m] == x;
    }
  }

  lemma {:induction false} StatesOf(a: seq<Op>, sourceTenant: nat)
    ensures forall v :: v in Imports(a, sourceTenant) <==> exists x :: x in a && x.tenant != sourceTenant && x.importState == v
    ensures forall v :: v in Deploys(a, sourceTenant) <==> exists x :: x in a && x.tenant != sourceTenant && x.deployState == v
  {
    if a != [] {
      StatesOf(a[1..], sourceTenant);
      assert forall x :: x in a <==> x == a[0] || x in a[1..];
    }
  }

  /** Whatever order the node statuses come in, a sync leaves the same rows and the same status;
      only the ids of rows it adds can differ. */
  lemma NodeOrderIrrelevant(dr: Dr, ops: seq<Op>, env: Env, dr1: Dr, ops1: seq<Op>, dr2: Dr, ops2: seq<Op>)
    requires Synced(dr, ops, env, dr1, ops1) && Synced(dr, ops, env, dr2, ops2)
    ensures dr1 == dr2
    ensures |ops| <= |ops1| && |ops| <= |ops2| && ops1[..|ops|] == ops2[..|ops|]
    ensures forall x :: x in ops1 <==> x in ops2
  {
    if MaySync(dr) {
      var a :| Imported(ops, env, a) && ops1 == Settled(a, env);
      var b :| Imported(ops, env, b) && ops2 == Settled(b, env);
      hide Imported, Settle, DeriveAggregateStatus;
      assert |ops| <= |a| && |ops| <= |b| by { AtLeast(ops, env, a); AtLeast(ops, env, b); }
      forall i | 0 <= i < |ops| ensures ops1[i] == ops2[i] { SameRow(ops, env, a, b, i); }
      forall x ensures x in ops1 <==> x in ops2 {
        if x in ops1 { SameSide(ops, env, a, b, x); }
        if x in ops2 { SameSide(ops, env, b, a, x); }
      }
    }
    SameRollup(dr, ops1, ops2);
  }

  lemma AtLeast(ops: seq<Op>, env: Env, a: seq<Op>)
    requires Imported(ops, env, a)
    ensures |ops| <= |a|
  {
  }

  lemma SameRollup(dr: Dr, a: seq<Op>, b: seq<Op>)
    requires forall x :: x in a <==> x in b
    ensures Rollup(dr, a) == Rollup(dr, b)
  {
    hide DeriveAggregateStatus, Imports, Deploys;
    StatesOf(a, dr.sourceTenant);
    StatesOf(b, dr.sourceTenant);
    OnlyStateSetsMatter(dr.status, Imports(a, dr.sourceTenant), Deploys(a, dr.sourceTenant),
                        Imports(b, dr.sourceTenant), Deploys(b, dr.sourceTenant));
  }

  /** A sync adds at most one row for a tenant and transport request, and only when there was none. */
  lemma SyncAddsNoDuplicate(dr: Dr, ops: seq<Op>, env: Env, dr': Dr, ops': seq<Op>, j: nat, k: nat)
    requires Synced(dr, ops, env, dr', ops') && j < k < |ops'| && PairOf(ops'[j]) == PairOf(ops'[k])
    ensures k < |ops| && PairOf(ops[j]) == PairOf(ops[k])
  {
    hide DeriveAggregateStatus, DeriveImport, StatusFor;
    if MaySync(dr) {
      var a :| Imported(ops, env, a) && ops' == Settled(a, env);
      var seen :| Progress(ops, env, seen, a) && Complete(ops, env, seen);
      if |ops| <= k {
        NewSubject(ops, env, a, k);
        if |ops| <= j {
          NewSubject(ops, env, a, j);
        } else {
          Subjects(ops, env, a, j);
        }
      } else {
        Subjects(ops, env, a, j);
        Subjects(ops, env, a, k);
      }
    }
  }
}
