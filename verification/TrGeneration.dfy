/** Generating one transport request for each operation of a batch, exports running side by side. */
module TrGeneration {
  import opened Lifecycle

  datatype Row = Row(dr: nat, tenant: nat, tr: string, state: RequestState, error: string)

  /** What the export of one operation comes to; a panic is a failure too. */
  datatype Export = Created(tr: string) | Broken(error: string)

  /** What precedes the exports: the tenant's readiness, the delivery request, the client and the catalog. */
  datatype Preparation = Prepared | Blocked(error: string)

  function Began(row: Row): Row { row.(state := RequestTrGenerating, error := "") }

  function Stopped(row: Row, error: string): Row { row.(state := RequestTrFailed, error := error) }

  function Ended(row: Row, outcome: Export): Row {
    match outcome
    case Created(tr) => row.(tr := tr, state := RequestPending, error := "")
    case Broken(error) => Stopped(row, error)
  }

  /** The operations the batch really works on. */
  function Loaded(rows: map<nat, Row>, ids: set<nat>, dr: nat, tenant: nat): set<nat> {
    set id | id in ids && id in rows && rows[id].dr == dr && rows[id].tenant == tenant
  }

  datatype Result = Fatal(error: string) | Results(succeeded: map<nat, string>, failed: set<nat>)

  class OperationTable {
    var rows: map<nat, Row>

    constructor (rows: map<nat, Row>)
      ensures this.rows == rows
    {
      this.rows := rows;
    }

    /** refused: the operations whose last write the database refuses. The results come in in any order. */
    method GenerateTransportRequest(tenant: nat, dr: nat, ids: set<nat>, preparation: Preparation,
                                    exports: map<nat, Export>, refused: set<nat>) returns (r: Result)
      requires Loaded(rows, ids, dr, tenant) <= exports.Keys
      modifies this`rows
      ensures rows.Keys == old(rows).Keys
      ensures forall id | id in rows && id !in ids :: rows[id] == old(rows)[id]
      ensures var loaded := Loaded(old(rows), ids, dr, tenant);
              && (r.Fatal? <==> preparation.Blocked? || loaded == {})
              && (r.Fatal? ==> forall id | id in rows && id in ids :: rows[id] == Stopped(old(rows)[id], r.error))
              && (r.Results? ==> Outcome(old(rows), rows, ids, loaded, exports, refused, r))
    {
      UpdateAll(ids);
      if preparation.Blocked? {
        StopAll(ids, preparation.error);
        return Fatal(preparation.error);
      }
      var loaded := Loaded(rows, ids, dr, tenant);
      assert loaded == Loaded(old(rows), ids, dr, tenant);
      if loaded == {} {
        StopAll(ids, "no matching operations");
        return Fatal("no matching operations");
      }
      var succeeded: map<nat, string> := map[];
      var failed: set<nat> := {};
      var pending := loaded;
      hide Loaded;
      while pending != {}
        invariant pending <= loaded && rows.Keys == old(rows).Keys
        invariant forall id | id in rows && id !in ids :: rows[id] == old(rows)[id]
        invariant Outcome(old(rows), rows, ids, loaded - pending, exports, refused, Results(succeeded, failed))
        decreases pending
      {
        var id :| id in pending;
        pending := pending - {id};
        ghost var before, was := rows, Results(succeeded, failed);
        match exports[id] {
          case Broken(error) =>
            failed := failed + {id};
            if id !in refused { rows := rows[id := Stopped(rows[id], error)]; }
          case Created(tr) =>
            if id in refused {
              failed := failed + {id};
            } else {
              rows := rows[id := rows[id].(tr := tr, state := RequestPending, error := "")];
              succeeded := succeeded[id := tr];
            }
        }
        OneMoreResult(old(rows), before, rows, ids, loaded - pending - {id}, exports, refused, was, Results(succeeded, failed), id);
        assert loaded - pending == loaded - pending - {id} + {id};
      }
      assert loaded - pending == loaded;
      return Results(succeeded, failed);
    }

    method UpdateAll(ids: set<nat>)
      modifies this`rows
      ensures rows.Keys == old(rows).Keys
      ensures forall id | id in rows :: rows[id] == if id in ids then Began(old(rows)[id]) else old(rows)[id]
    {
      rows := map id | id in rows :: if id in ids then Began(rows[id]) else rows[id];
    }

    method StopAll(ids: set<nat>, error: string)
      modifies this`rows
      ensures rows.Keys == old(rows).Keys
      ensures forall id | id in rows :: rows[id] == if id in ids then Stopped(old(rows)[id], error) else old(rows)[id]
    {
      rows := map id | id in rows :: if id in ids then Stopped(rows[id], error) else rows[id];
    }
  }

  /** The table and the two results once the exports in arrived have been dealt with. */
  ghost predicate Outcome(rows: map<nat, Row>, rows': map<nat, Row>, ids: set<nat>, arrived: set<nat>,
                          exports: map<nat, Export>, refused: set<nat>, r: Result) {
    && r.Results? && rows'.Keys == rows.Keys && arrived <= exports.Keys && arrived <= rows.Keys
    && r.succeeded.Keys + r.failed == arrived && r.succeeded.Keys !! r.failed
    && (forall id | id in arrived :: id in r.succeeded <==> exports[id].Created? && id !in refused)
    && (forall id | id in r.succeeded :: exports[id] == Created(r.succeeded[id]))
    && (forall id | id in rows && id in ids ::
          rows'[id] == if id in arrived && id !in refused then Ended(Began(rows[id]), exports[id]) else Began(rows[id]))
  }

  lemma OneMoreResult(rows: map<nat, Row>, before: map<nat, Row>, after: map<nat, Row>, ids: set<nat>, arrived: set<nat>,
                      exports: map<nat, Export>, refused: set<nat>, was: Result, now: Result, id: nat)
    requires Outcome(rows, before, ids, arrived, exports, refused, was) && id !in arrived && id in ids && id in rows && id in exports
    requires now.Results?
    requires exports[id].Created? && id !in refused ==> now == was.(succeeded := was.succeeded[id := exports[id].tr])
    requires !(exports[id].Created? && id !in refused) ==> now == was.(failed := was.failed + {id})
    requires after == if id in refused then before else before[id := Ended(before[id], exports[id])]
    ensures Outcome(rows, after, ids, arrived + {id}, exports, refused, now)
  {
  }

  /** Success and failure divide up the operations loaded, whatever order the results come in, and nobody's result
      becomes another's. When no write is refused every operation loaded ends with its own transport request or marked
      as failed. An operation named but not loaded is left generating. */
  lemma EveryOperationEnds(rows: map<nat, Row>, rows': map<nat, Row>, ids: set<nat>, dr: nat, tenant: nat,
                           exports: map<nat, Export>, r: Result, id: nat)
    requires Loaded(rows, ids, dr, tenant) <= exports.Keys
    requires Outcome(rows, rows', ids, Loaded(rows, ids, dr, tenant), exports, {}, r)
    requires id in ids && id in rows
    ensures id in r.succeeded ==> rows'[id].tr == exports[id].tr == r.succeeded[id] && rows'[id].state == RequestPending
    ensures id in r.failed ==> rows'[id].state == RequestTrFailed && exports[id] == Broken(rows'[id].error) && rows'[id].tr == rows[id].tr
    ensures rows'[id].state == RequestTrGenerating <==> rows[id].dr != dr || rows[id].tenant != tenant
  {
    assert id in Loaded(rows, ids, dr, tenant) <==> rows[id].dr == dr && rows[id].tenant == tenant;
    if id in Loaded(rows, ids, dr, tenant) { assert id in r.succeeded || id in r.failed; }
  }

  /** Two orders of arrival leave the same table and the same results. */
  lemma ArrivalOrderIrrelevant(rows: map<nat, Row>, a: map<nat, Row>, b: map<nat, Row>, ids: set<nat>, loaded: set<nat>,
                               exports: map<nat, Export>, refused: set<nat>, r: Result, s: Result)
    requires Outcome(rows, a, ids, loaded, exports, refused, r) && Outcome(rows, b, ids, loaded, exports, refused, s)
    requires forall id | id in rows && id !in ids :: a[id] == rows[id] && b[id] == rows[id]
    ensures a == b && r == s
  {
    assert forall id | id in rows :: a[id] == b[id];
    assert a == b;
    forall id ensures id in r.succeeded <==> id in s.succeeded {
      if id in r.succeeded { assert id in r.succeeded.Keys + r.failed; }
      if id in s.succeeded { assert id in s.succeeded.Keys + s.failed; }
    }
    assert r.succeeded == s.succeeded;
    forall id ensures id in r.failed <==> id in s.failed {
      if id in r.failed { assert id in r.succeeded.Keys + r.failed && id in s.succeeded.Keys + s.failed; }
      if id in s.failed { assert id in s.succeeded.Keys + s.failed && id in r.succeeded.Keys + r.failed; }
    }
  }
}
