/**
 * Sync bookkeeping: the overall sync status, the number of records still
 * waiting to be synchronised, the per-record status updates, and the sync log
 * with its statistics.
 */
module SyncStatus {
  import opened Wrappers
  import opened Json
  import opened Records

  /** The overall sync status shown to the user. */
  datatype Status = Idle | Syncing | Success | Error | Offline

  /** Number of occurrences of `x` in `xs`. */
  function Count<T(==)>(xs: seq<T>, x: T): (n: nat)
    ensures n <= |xs|
    ensures n == 0 <==> x !in xs
    decreases |xs|
  {
    if xs == [] then 0
    else Count(xs[..|xs| - 1], x) + (if xs[|xs| - 1] == x then 1 else 0)
  }

  /** Replacing one element changes each count by what left and what arrived. */
  lemma {:induction false} CountReplace<T>(xs: seq<T>, i: nat, y: T, x: T)
    requires i < |xs|
    ensures Count(xs[i := y], x) + (if xs[i] == x then 1 else 0)
         == Count(xs, x) + (if y == x then 1 else 0)
    decreases |xs|
  {
    var n := |xs| - 1;
    var ys := xs[i := y];
    assert ys[..n] == if i < n then xs[..n][i := y] else xs[..n];
    if i < n {
      CountReplace(xs[..n], i, y, x);
    }
  }

  /** Two different values are counted apart, so together they occur at most `|xs|` times. */
  lemma {:induction false} CountTwo<T>(xs: seq<T>, x: T, y: T)
    requires x != y
    ensures Count(xs, x) + Count(xs, y) <= |xs|
    decreases |xs|
  {
    if xs != [] {
      CountTwo(xs[..|xs| - 1], x, y);
    }
  }

  /** The syncStatus column of "select all receipts". */
  function ReceiptStatuses(t: Table<Receipt>): (ss: seq<string>)
    requires t.Valid()
    ensures |ss| == |t.order|
    ensures forall i :: 0 <= i < |ss| ==> ss[i] == t.All()[i].syncStatus
  {
    var rows := t.All();
    seq(|rows|, i requires 0 <= i < |rows| => rows[i].syncStatus)
  }

  function CollectionStatuses(t: Table<Collection>): (ss: seq<string>)
    requires t.Valid()
    ensures |ss| == |t.order|
    ensures forall i :: 0 <= i < |ss| ==> ss[i] == t.All()[i].syncStatus
  {
    var rows := t.All();
    seq(|rows|, i requires 0 <= i < |rows| => rows[i].syncStatus)
  }

  /**
   * The pending-sync count: receipts waiting to be sent, collections waiting to
   * be sent, and receipts left in conflict.
   */
  function PendingCount(s: Store): nat
    requires s.Valid()
  {
    Count(ReceiptStatuses(s.receipts), PENDING)
      + Count(CollectionStatuses(s.collections), PENDING)
      + Count(ReceiptStatuses(s.receipts), CONFLICT)
  }

  /** No record is counted twice: the pending count never exceeds the number of records. */
  lemma PendingCountBound(s: Store)
    requires s.Valid()
    ensures PendingCount(s) <= |s.receipts.order| + |s.collections.order|
  {
    CountTwo(ReceiptStatuses(s.receipts), PENDING, CONFLICT);
  }

  /** `updateSyncStatus(id, status)` on the receipts table: no row changes when the id is absent. */
  function SetReceiptStatus(t: Table<Receipt>, id: string, status: string): (t': Table<Receipt>)
    ensures t'.order == t.order && t'.rows.Keys == t.rows.Keys
    ensures id in t.rows ==> t'.rows[id] == t.rows[id].(syncStatus := status)
    ensures forall k :: k in t.rows && k != id ==> t'.rows[k] == t.rows[k]
  {
    if id in t.rows then Table(t.order, t.rows[id := t.rows[id].(syncStatus := status)]) else t
  }

  function SetCollectionStatus(t: Table<Collection>, id: string, status: string): (t': Table<Collection>)
    ensures t'.order == t.order && t'.rows.Keys == t.rows.Keys
    ensures id in t.rows ==> t'.rows[id] == t.rows[id].(syncStatus := status)
    ensures forall k :: k in t.rows && k != id ==> t'.rows[k] == t.rows[k]
  {
    if id in t.rows then Table(t.order, t.rows[id := t.rows[id].(syncStatus := status)]) else t
  }

  /** Weight of one status in the pending count. */
  function ReceiptWeight(status: string): nat {
    (if status == PENDING then 1 else 0) + (if status == CONFLICT then 1 else 0)
  }

  function CollectionWeight(status: string): nat {
    if status == PENDING then 1 else 0
  }

  /** The status columns after a receipt status update: one entry replaced. */
  lemma ReceiptStatusesAfterSet(t: Table<Receipt>, id: string, status: string, i: nat)
    requires t.Valid() && i < |t.order| && t.order[i] == id
    ensures SetReceiptStatus(t, id, status).Valid()
    ensures ReceiptStatuses(SetReceiptStatus(t, id, status)) == ReceiptStatuses(t)[i := status]
  {
    var t' := SetReceiptStatus(t, id, status);
    assert t'.Valid();
    var a, b := ReceiptStatuses(t'), ReceiptStatuses(t)[i := status];
    forall k | 0 <= k < |a| ensures a[k] == b[k] {
      if k != i {
        assert t.order[k] != id;
      }
    }
  }

  lemma CollectionStatusesAfterSet(t: Table<Collection>, id: string, status: string, i: nat)
    requires t.Valid() && i < |t.order| && t.order[i] == id
    ensures SetCollectionStatus(t, id, status).Valid()
    ensures CollectionStatuses(SetCollectionStatus(t, id, status)) == CollectionStatuses(t)[i := status]
  {
    var t' := SetCollectionStatus(t, id, status);
    assert t'.Valid();
    var a, b := CollectionStatuses(t'), CollectionStatuses(t)[i := status];
    forall k | 0 <= k < |a| ensures a[k] == b[k] {
      if k != i {
        assert t.order[k] != id;
      }
    }
  }

  /** A status update keeps every row under its own id. */
  lemma SetReceiptStatusValid(s: Store, id: string, status: string)
    requires s.Valid()
    ensures s.(receipts := SetReceiptStatus(s.receipts, id, status)).Valid()
  {
    var t' := SetReceiptStatus(s.receipts, id, status);
    assert forall k :: k in t'.rows <==> k in s.receipts.rows;
  }

  lemma SetCollectionStatusValid(s: Store, id: string, status: string)
    requires s.Valid()
    ensures s.(collections := SetCollectionStatus(s.collections, id, status)).Valid()
  {
    var t' := SetCollectionStatus(s.collections, id, status);
    assert forall k :: k in t'.rows <==> k in s.collections.rows;
  }

  /**
   * Setting a receipt's status moves the pending count by the difference of the
   * two statuses' weights: marking a PENDING or CONFLICT receipt SYNCED removes
   * it from the count, marking a SYNCED one PENDING adds it.
   */
  lemma SetReceiptStatusPending(s: Store, id: string, status: string)
    requires s.Valid()
    ensures var s' := s.(receipts := SetReceiptStatus(s.receipts, id, status));
      && s'.Valid()
      && PendingCount(s') + (if id in s.receipts.rows then ReceiptWeight(s.receipts.rows[id].syncStatus) else 0)
         == PendingCount(s) + (if id in s.receipts.rows then ReceiptWeight(status) else 0)
  {
    var t := s.receipts;
    var s' := s.(receipts := SetReceiptStatus(t, id, status));
    SetReceiptStatusValid(s, id, status);
    if id in t.rows {
      var i :| 0 <= i < |t.order| && t.order[i] == id;
      ReceiptStatusesAfterSet(t, id, status, i);
      var ss := ReceiptStatuses(t);
      assert ss[i] == t.rows[id].syncStatus;
      CountReplace(ss, i, status, PENDING);
      CountReplace(ss, i, status, CONFLICT);
    } else {
      assert s' == s;
    }
  }

  lemma SetCollectionStatusPending(s: Store, id: string, status: string)
    requires s.Valid()
    ensures var s' := s.(collections := SetCollectionStatus(s.collections, id, status));
      && s'.Valid()
      && PendingCount(s') + (if id in s.collections.rows then CollectionWeight(s.collections.rows[id].syncStatus) else 0)
         == PendingCount(s) + (if id in s.collections.rows then CollectionWeight(status) else 0)
  {
    var t := s.collections;
    var s' := s.(collections := SetCollectionStatus(t, id, status));
    SetCollectionStatusValid(s, id, status);
    if id in t.rows {
      var i :| 0 <= i < |t.order| && t.order[i] == id;
      CollectionStatusesAfterSet(t, id, status, i);
      var ss := CollectionStatuses(t);
      assert ss[i] == t.rows[id].syncStatus;
      CountReplace(ss, i, status, PENDING);
    } else {
      assert s' == s;
    }
  }

  // ---------------------------------------------------------------------------
  // The sync log and its statistics
  // ---------------------------------------------------------------------------

  /** `getSyncLogsByDevice(deviceId)`: this device's entries, in log order. */
  function LogsOf(logs: seq<SyncLog>, deviceId: string): (r: seq<SyncLog>)
    ensures |r| <= |logs|
    ensures forall e :: e in r <==> e in logs && e.deviceId == deviceId
    decreases |logs|
  {
    if logs == [] then []
    else
      var init := LogsOf(logs[..|logs| - 1], deviceId);
      var last := logs[|logs| - 1];
      assert logs == logs[..|logs| - 1] + [last];
      if last.deviceId == deviceId then init + [last] else init
  }

  /** The device's entries of a log made of two parts are its entries of each part, in order. */
  lemma {:induction false} LogsOfConcat(a: seq<SyncLog>, b: seq<SyncLog>, deviceId: string)
    ensures LogsOf(a + b, deviceId) == LogsOf(a, deviceId) + LogsOf(b, deviceId)
    decreases |b|
  {
    if b == [] {
      assert a + b == a;
    } else {
      var b' := b[..|b| - 1];
      assert (a + b)[..|a + b| - 1] == a + b';
      assert (a + b)[|a + b| - 1] == b[|b| - 1];
      LogsOfConcat(a, b', deviceId);
    }
  }

  /** Appending an entry adds it to its own device's entries, once, at the end, and to no other's. */
  lemma LogsOfAppend(logs: seq<SyncLog>, e: SyncLog, deviceId: string)
    ensures LogsOf(logs + [e], deviceId) == LogsOf(logs, deviceId) + (if e.deviceId == deviceId then [e] else [])
  {
    LogsOfConcat(logs, [e], deviceId);
    assert [e][..0] == [];
  }

  function LogStatuses(logs: seq<SyncLog>): (ss: seq<string>)
    ensures |ss| == |logs|
    ensures forall i :: 0 <= i < |logs| ==> ss[i] == logs[i].status
  {
    seq(|logs|, i requires 0 <= i < |logs| => logs[i].status)
  }

  /** `maxByOrNull { it.lastSyncTime }?.lastSyncTime`. */
  function LatestTime(logs: seq<SyncLog>): (r: Option<int64>)
    ensures r.None? <==> logs == []
    ensures r.Some? ==> (exists i :: 0 <= i < |logs| && logs[i].lastSyncTime == r.value)
    ensures r.Some? ==> forall i :: 0 <= i < |logs| ==> logs[i].lastSyncTime <= r.value
    decreases |logs|
  {
    if logs == [] then None
    else
      var last := logs[|logs| - 1];
      var init := logs[..|logs| - 1];
      match LatestTime(init)
      case None => Some(last.lastSyncTime)
      case Some(t) =>
        assert forall i :: 0 <= i < |init| ==> init[i] == logs[i];
        if last.lastSyncTime > t then Some(last.lastSyncTime) else Some(t)
  }

  /** The statistics record of getSyncStats. */
  datatype SyncStats = SyncStats(
    totalSyncs: nat,
    successfulSyncs: nat,
    failedSyncs: nat,
    lastSyncTime: Option<int64>,
    pendingCount: nat,
    connectedDevicesCount: nat)

  function StatsOf(logs: seq<SyncLog>, deviceId: string, pending: nat, connected: nat): SyncStats {
    var mine := LogsOf(logs, deviceId);
    SyncStats(|mine|, Count(LogStatuses(mine), "SUCCESS"), Count(LogStatuses(mine), "FAILED"),
              LatestTime(mine), pending, connected)
  }

  /**
   * The statistics count this device's entries only; successes and failures are
   * disjoint (a "PARTIAL" entry is neither); the last sync time is absent exactly
   * when there is no entry, and is otherwise the largest entry time.
   */
  lemma StatsFacts(logs: seq<SyncLog>, deviceId: string, pending: nat, connected: nat)
    ensures var st := StatsOf(logs, deviceId, pending, connected);
      var mine := LogsOf(logs, deviceId);
      && st.totalSyncs == |mine|
      && st.successfulSyncs + st.failedSyncs <= st.totalSyncs
      && (st.lastSyncTime.None? <==> st.totalSyncs == 0)
      && (st.lastSyncTime.Some? ==>
            (exists e :: e in logs && e.deviceId == deviceId && e.lastSyncTime == st.lastSyncTime.value)
            && forall e :: e in logs && e.deviceId == deviceId ==> e.lastSyncTime <= st.lastSyncTime.value)
  {
    var mine := LogsOf(logs, deviceId);
    CountTwo(LogStatuses(mine), "SUCCESS", "FAILED");
    var st := StatsOf(logs, deviceId, pending, connected);
    if st.lastSyncTime.Some? {
      var i :| 0 <= i < |mine| && mine[i].lastSyncTime == st.lastSyncTime.value;
      assert mine[i] in mine;
      forall e | e in logs && e.deviceId == deviceId
        ensures e.lastSyncTime <= st.lastSyncTime.value
      {
        assert e in mine;
        var j :| 0 <= j < |mine| && mine[j] == e;
      }
    }
  }

  /** Adding one entry of this device with a given status adds one to the total and to that status's count. */
  lemma StatsAfterLog(logs: seq<SyncLog>, e: SyncLog, pending: nat, connected: nat)
    ensures var before := StatsOf(logs, e.deviceId, pending, connected);
      var after := StatsOf(logs + [e], e.deviceId, pending, connected);
      && after.totalSyncs == before.totalSyncs + 1
      && after.successfulSyncs == before.successfulSyncs + (if e.status == "SUCCESS" then 1 else 0)
      && after.failedSyncs == before.failedSyncs + (if e.status == "FAILED" then 1 else 0)
  {
    var all := logs + [e];
    assert all[..|all| - 1] == logs;
    var mine := LogsOf(logs, e.deviceId);
    assert LogsOf(all, e.deviceId) == mine + [e];
    var ss := LogStatuses(mine + [e]);
    assert ss[..|ss| - 1] == LogStatuses(mine);
  }

  // ---------------------------------------------------------------------------
  // The manager object
  // ---------------------------------------------------------------------------

  class SyncStatusManager {
    /** The device database; shared with the rest of the application. */
    const db: Database
    /** The identity of this device, as the device manager reports it. */
    const deviceId: string
    var syncStatus: Status
    var pendingSyncCount: nat
    var connectedDevices: seq<string>

    ghost predicate Valid()
      reads this, db
    {
      db.Valid()
    }

    constructor (db: Database, deviceId: string)
      requires db.Valid()
      ensures Valid() && this.db == db && this.deviceId == deviceId
      ensures syncStatus == Idle && pendingSyncCount == 0 && connectedDevices == []
    {
      this.db := db;
      this.deviceId := deviceId;
      syncStatus := Idle;
      pendingSyncCount := 0;
      connectedDevices := [];
    }

    method UpdateConnectedDevices(devices: seq<string>)
      modifies this`connectedDevices
      ensures connectedDevices == devices
    {
      connectedDevices := devices;
    }

    /** The recomputation of the pending count; done in the background by the source. */
    method UpdatePendingSyncCount()
      requires Valid()
      modifies this`pendingSyncCount
      ensures pendingSyncCount == PendingCount(db.store)
    {
      pendingSyncCount := PendingCount(db.store);
    }

    method StartSync()
      requires Valid()
      modifies this`syncStatus, this`pendingSyncCount
      ensures syncStatus == Syncing && pendingSyncCount == PendingCount(db.store)
    {
      syncStatus := Syncing;
      UpdatePendingSyncCount();
    }

    method CompleteSyncSuccess()
      requires Valid()
      modifies this`syncStatus, this`pendingSyncCount
      ensures syncStatus == Success && pendingSyncCount == PendingCount(db.store)
    {
      syncStatus := Success;
      UpdatePendingSyncCount();
    }

    /** A failed sync: the ERROR status, and a "FAILED" entry in the log. */
    method CompleteSyncError(error: string, now: int64)
      requires Valid()
      modifies this`syncStatus, this`pendingSyncCount, db`logs
      ensures Valid()
      ensures syncStatus == Error && pendingSyncCount == PendingCount(db.store)
      ensures db.store == old(db.store)
      ensures db.logs == old(db.logs) + [SyncLog(deviceId, now, "ERROR", 0, "FAILED", Some(error))]
    {
      syncStatus := Error;
      LogSyncError(error, now);
      UpdatePendingSyncCount();
    }

    method SetOfflineStatus()
      modifies this`syncStatus
      ensures syncStatus == Offline
    {
      syncStatus := Offline;
    }

    method SetIdleStatus()
      modifies this`syncStatus
      ensures syncStatus == Idle
    {
      syncStatus := Idle;
    }

    method MarkReceiptPendingSync(receiptId: string)
      requires Valid()
      modifies db`store, this`pendingSyncCount
      ensures Valid()
      ensures db.store == old(db.store).(receipts := SetReceiptStatus(old(db.store).receipts, receiptId, PENDING))
      ensures pendingSyncCount == PendingCount(db.store)
    {
      SetReceiptStatusPending(db.store, receiptId, PENDING);
      db.store := db.store.(receipts := SetReceiptStatus(db.store.receipts, receiptId, PENDING));
      UpdatePendingSyncCount();
    }

    method MarkReceiptSynced(receiptId: string)
      requires Valid()
      modifies db`store, this`pendingSyncCount
      ensures Valid()
      ensures db.store == old(db.store).(receipts := SetReceiptStatus(old(db.store).receipts, receiptId, SYNCED))
      ensures pendingSyncCount == PendingCount(db.store)
    {
      SetReceiptStatusPending(db.store, receiptId, SYNCED);
      db.store := db.store.(receipts := SetReceiptStatus(db.store.receipts, receiptId, SYNCED));
      UpdatePendingSyncCount();
    }

    method MarkReceiptConflict(receiptId: string)
      requires Valid()
      modifies db`store, this`pendingSyncCount
      ensures Valid()
      ensures db.store == old(db.store).(receipts := SetReceiptStatus(old(db.store).receipts, receiptId, CONFLICT))
      ensures pendingSyncCount == PendingCount(db.store)
    {
      SetReceiptStatusPending(db.store, receiptId, CONFLICT);
      db.store := db.store.(receipts := SetReceiptStatus(db.store.receipts, receiptId, CONFLICT));
      UpdatePendingSyncCount();
    }

    method MarkCollectionPendingSync(collectionId: string)
      requires Valid()
      modifies db`store, this`pendingSyncCount
      ensures Valid()
      ensures db.store == old(db.store).(collections := SetCollectionStatus(old(db.store).collections, collectionId, PENDING))
      ensures pendingSyncCount == PendingCount(db.store)
    {
      SetCollectionStatusPending(db.store, collectionId, PENDING);
      db.store := db.store.(collections := SetCollectionStatus(db.store.collections, collectionId, PENDING));
      UpdatePendingSyncCount();
    }

    method MarkCollectionSynced(collectionId: string)
      requires Valid()
      modifies db`store, this`pendingSyncCount
      ensures Valid()
      ensures db.store == old(db.store).(collections := SetCollectionStatus(old(db.store).collections, collectionId, SYNCED))
      ensures pendingSyncCount == PendingCount(db.store)
    {
      SetCollectionStatusPending(db.store, collectionId, SYNCED);
      db.store := db.store.(collections := SetCollectionStatus(db.store.collections, collectionId, SYNCED));
      UpdatePendingSyncCount();
    }

    /** One new log entry for this device, stamped with the current time. */
    method LogSync(syncType: string, recordCount: int, status: string, error: Option<string>, now: int64)
      modifies db`logs
      ensures db.logs == old(db.logs) + [SyncLog(deviceId, now, syncType, recordCount, status, error)]
    {
      db.logs := db.logs + [SyncLog(deviceId, now, syncType, recordCount, status, error)];
    }

    method LogSyncError(error: string, now: int64)
      modifies db`logs
      ensures db.logs == old(db.logs) + [SyncLog(deviceId, now, "ERROR", 0, "FAILED", Some(error))]
    {
      LogSync("ERROR", 0, "FAILED", Some(error), now);
    }

    method GetSyncStats() returns (stats: SyncStats)
      ensures stats == StatsOf(db.logs, deviceId, pendingSyncCount, |connectedDevices|)
    {
      var mine := LogsOf(db.logs, deviceId);
      stats := SyncStats(|mine|, Count(LogStatuses(mine), "SUCCESS"), Count(LogStatuses(mine), "FAILED"),
                         LatestTime(mine), pendingSyncCount, |connectedDevices|);
    }
  }
}
