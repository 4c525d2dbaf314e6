/** The git_artifact_snapshots table: one row per (artifact, version, tenant), used as a distributed lock.
    Each function is one SQL statement; the class runs them against the table. */
module Snapshots {
  import opened Strings
  import opened GitObjects

  /** Three minutes, in seconds. */
  const PENDING_TIMEOUT: int := 180

  const NOT_FOUND_VERSION: string := "0.0.0"

  datatype Status = Pending | Completed | Failed | NotFound

  datatype Key = Key(artifact: string, version: string, tenantId: nat)

  datatype Row = Row(status: Status, treePath: string, tagName: string, commit: Option<Commit>, triggeredAt: int)

  type Rows = map<Key, Row>

  /** INSERT under the unique index. */
  function Insert(rows: Rows, key: Key, row: Row): Rows {
    if key in rows then rows else rows[key := row]
  }

  /** The reclaim statements leave tree path and tag name as the first claimant wrote them. */
  function Reclaimed(row: Row, stamp: int): Row {
    row.(status := Pending, commit := None, triggeredAt := stamp)
  }

  predicate IsStale(rows: Rows, key: Key, cutoff: int) {
    key in rows && rows[key].status == Pending && rows[key].triggeredAt < cutoff - PENDING_TIMEOUT
  }

  /** UPDATE ... WHERE status = pending AND triggered_at < cutoff - timeout. */
  function TakeStale(rows: Rows, key: Key, cutoff: int, stamp: int): Rows {
    if IsStale(rows, key, cutoff) then rows[key := Reclaimed(rows[key], stamp)] else rows
  }

  predicate IsFailed(rows: Rows, key: Key) {
    key in rows && rows[key].status == Failed
  }

  /** UPDATE ... WHERE status = failed. */
  function TakeFailed(rows: Rows, key: Key, stamp: int): Rows {
    if IsFailed(rows, key) then rows[key := Reclaimed(rows[key], stamp)] else rows
  }

  /** The owner's final write; it is not guarded by the row's status. */
  function Complete(rows: Rows, key: Key, status: Status, commit: Option<Commit>): Rows {
    if key in rows then rows[key := rows[key].(status := status, commit := commit)] else rows
  }

  function Invalidate(rows: Rows, key: Key): Rows {
    if key in rows && rows[key].status == Completed then rows[key := rows[key].(status := Failed)] else rows
  }

  function RecordNotFound(rows: Rows, artifact: string, tenantId: nat, now: int): Rows {
    var key := Key(artifact, NOT_FOUND_VERSION, tenantId);
    if key in rows then rows[key := rows[key].(status := NotFound, triggeredAt := now)]
    else rows[key := Row(NotFound, "", "", None, now)]
  }

  /** A sync that comes along now can take the row. */
  predicate Claimable(rows: Rows, key: Key, now: int) {
    key !in rows || IsFailed(rows, key) || IsStale(rows, key, now)
  }

  /** The table after a claim with nobody else writing in between. */
  function AfterClaim(rows: Rows, key: Key, treePath: string, tagName: string, now: int): Rows {
    if key !in rows then Insert(rows, key, Row(Pending, treePath, tagName, None, now))
    else if IsFailed(rows, key) then TakeFailed(rows, key, now)
    else TakeStale(rows, key, now, now)
  }

  datatype ClaimOutcome = Claimed | NotClaimed | UnexpectedStatus

  class SnapshotTable {
    var rows: Rows

    constructor ()
      ensures rows == map[]
    {
      rows := map[];
    }

    /** claimGitSyncSnapshot with nobody else writing in between and the clock standing at now. */
    method Claim(key: Key, treePath: string, tagName: string, now: int) returns (outcome: ClaimOutcome)
      modifies this
      ensures outcome == Claimed <==>
                || key !in old(rows)
                || old(rows)[key].status == Failed
                || (old(rows)[key].status == Pending && now - old(rows)[key].triggeredAt > PENDING_TIMEOUT)
      ensures outcome == Claimed <==> Claimable(old(rows), key, now)
      ensures rows == AfterClaim(old(rows), key, treePath, tagName, now)
      ensures outcome == UnexpectedStatus <==> key in old(rows) && old(rows)[key].status == NotFound
      ensures outcome != Claimed ==> rows == old(rows)
      ensures outcome == Claimed ==>
                && key in rows && rows == old(rows)[key := rows[key]]
                && rows[key].status == Pending && rows[key].triggeredAt == now && rows[key].commit == None
                && (key in old(rows) ==> rows[key].treePath == old(rows)[key].treePath && rows[key].tagName == old(rows)[key].tagName)
                && (key !in old(rows) ==> rows[key].treePath == treePath && rows[key].tagName == tagName)
    {
      if key !in rows {
        rows := Insert(rows, key, Row(Pending, treePath, tagName, None, now));
        return Claimed;
      }
      var row := rows[key];
      match row.status {
        case Completed => return NotClaimed;
        case Pending =>
          if now - row.triggeredAt < PENDING_TIMEOUT { return NotClaimed; }
          if !IsStale(rows, key, now) { return NotClaimed; }
          rows := TakeStale(rows, key, now, now);
          return Claimed;
        case Failed =>
          if !IsFailed(rows, key) { return NotClaimed; }
          rows := TakeFailed(rows, key, now);
          return Claimed;
        case NotFound => return UnexpectedStatus;
      }
    }

    /** A completed row is never taken again, a failed one at once; where the row points does not change. */
    method CompleteSnapshot(key: Key, status: Status, commit: Option<Commit>)
      modifies this
      ensures rows == Complete(old(rows), key, status, commit)
      ensures key in rows && status in {Completed, Failed} ==> forall now :: Claimable(rows, key, now) <==> status == Failed
      ensures key in rows ==> rows[key].commit == commit && rows[key].treePath == old(rows)[key].treePath
      ensures forall other, now | other != key :: Claimable(rows, other, now) <==> Claimable(old(rows), other, now)
    {
      if key in rows {
        rows := rows[key := rows[key].(status := status, commit := commit)];
      }
    }

    /** The read half of the orphan recovery reports a missing row; the write half opens a completed row, and no other,
        to the next sync. */
    method InvalidateSnapshot(key: Key) returns (found: bool)
      modifies this
      ensures found == (key in old(rows))
      ensures rows == Invalidate(old(rows), key)
      ensures forall now :: Claimable(rows, key, now) <==>
                Claimable(old(rows), key, now) || (key in old(rows) && old(rows)[key].status == Completed)
      ensures forall other, now | other != key :: Claimable(rows, other, now) <==> Claimable(old(rows), other, now)
    {
      found := key in rows;
      if found && rows[key].status == Completed {
        rows := rows[key := rows[key].(status := Failed)];
      }
    }

    /** The sentinel row cannot be taken by any sync, whatever it was before; no real version is affected. */
    method RecordNotFoundSnapshot(artifact: string, tenantId: nat, now: int)
      modifies this
      ensures rows == RecordNotFound(old(rows), artifact, tenantId, now)
      ensures forall later :: !Claimable(rows, Key(artifact, NOT_FOUND_VERSION, tenantId), later)
      ensures forall key: Key, later | key.version != NOT_FOUND_VERSION :: Claimable(rows, key, later) <==> Claimable(old(rows), key, later)
    {
      var key := Key(artifact, NOT_FOUND_VERSION, tenantId);
      if key in rows {
        rows := rows[key := rows[key].(status := NotFound, triggeredAt := now)];
      } else {
        rows := Insert(rows, key, Row(NotFound, "", "", None, now));
      }
    }
  }

  /** Recovery of an orphan: a completed row, invalidated, is the next sync's to complete anew, in the same place; a
      second invalidation in between changes nothing. */
  lemma InvalidationReopens(rows: Rows, key: Key, treePath: string, tagName: string, now: int, commit: Option<Commit>)
    requires key in rows && rows[key].status == Completed
    ensures Invalidate(Invalidate(rows, key), key) == Invalidate(rows, key)
    ensures var reopened := Invalidate(rows, key);
            var claimed := AfterClaim(reopened, key, treePath, tagName, now);
            && Claimable(reopened, key, now) && !Claimable(claimed, key, now)
            && Complete(claimed, key, Completed, commit)[key] == rows[key].(commit := commit, triggeredAt := now)
  {
  }
}
