/**
 * The device-discovery and sync helper: the list of peers found on the local
 * network, the discovery flag, the sync protocol messages, and the sync of
 * this device's database with one peer and with every discovered peer.
 *
 * The network is not modelled: what a peer answers (an I/O failure, no line,
 * or a JSON object) is a parameter of the operations that talk to it, and the
 * current time is a parameter too.
 */
module Discovery {
  import opened Wrappers
  import opened Json
  import opened Strings
  import opened Records
  import opened Merge
  import SyncStatus
  import opened Devices

  const SERVICE_TYPE := "_mrp_sync._tcp"
  const SERVICE_NAME := "MRP-Sync"
  const SYNC_PORT := 8765

  /** What this device knows about a peer. */
  datatype DiscoveredDevice = DiscoveredDevice(
    deviceId: string,
    deviceName: string,
    address: string,
    port: int32,
    role: DeviceRole,
    capabilities: seq<string>,
    lastSeen: int64,
    networkLatency: int64)

  datatype NetworkStatus = Disconnected | Connecting | Connected | SyncAvailable | SyncError {
    /** The enum constant's name, as the statistics report it. */
    function Name(): string {
      match this
      case Disconnected => "DISCONNECTED"
      case Connecting => "CONNECTING"
      case Connected => "CONNECTED"
      case SyncAvailable => "SYNC_AVAILABLE"
      case SyncError => "SYNC_ERROR"
    }
  }

  datatype SyncPhase =
    | Idle | Discovering | Connecting | SyncingReceipts | SyncingCollections
    | ResolvingConflicts | Completed | Error

  /** The progress record shown while syncing (the fractional progress is not modelled). */
  datatype SyncProgress = SyncProgress(
    status: SyncPhase, currentOperation: string, deviceCount: nat, completedDevices: nat)

  const IdleProgress := SyncProgress(SyncPhase.Idle, "", 0, 0)

  datatype SyncResult = SyncResult(
    success: bool,
    timestamp: int64,
    devicesSync: nat,
    receiptsSync: nat,
    collectionsSync: nat,
    conflicts: nat,
    errorMessage: Option<string>)

  /**
   * What came back from one peer: the connection or the stream failed (or the
   * line was not a JSON object), the peer closed without a line, or it answered
   * with a JSON object.
   */
  datatype Exchange = Failed(message: string) | NoReply | Reply(payload: JFields)

  // ---------------------------------------------------------------------------
  // The peer list
  // ---------------------------------------------------------------------------

  /** No two entries share a device id. */
  ghost predicate UniqueIds(devices: seq<DiscoveredDevice>) {
    forall i, j :: 0 <= i < j < |devices| ==> devices[i].deviceId != devices[j].deviceId
  }

  /** `indexOfFirst { it.deviceId == id }`, with -1 as None. */
  function IndexOfDevice(devices: seq<DiscoveredDevice>, id: string): (r: Option<nat>)
    ensures r.Some? ==> r.value < |devices| && devices[r.value].deviceId == id
    ensures r.Some? ==> forall j :: 0 <= j < r.value ==> devices[j].deviceId != id
    ensures r.None? ==> forall j :: 0 <= j < |devices| ==> devices[j].deviceId != id
    decreases |devices|
  {
    if devices == [] then None
    else if devices[0].deviceId == id then Some(0)
    else match IndexOfDevice(devices[1..], id)
      case None => None
      case Some(k) => Some(k + 1)
  }

  /** Upsert by device id: the first entry with the id is replaced, or the device is appended. */
  function Upsert(devices: seq<DiscoveredDevice>, d: DiscoveredDevice): seq<DiscoveredDevice>
    decreases |devices|
  {
    if devices == [] then [d]
    else if devices[0].deviceId == d.deviceId then [d] + devices[1..]
    else [devices[0]] + Upsert(devices[1..], d)
  }

  /** The upsert replaces in place at the first matching index, or appends. */
  lemma {:induction false} UpsertAtIndex(devices: seq<DiscoveredDevice>, d: DiscoveredDevice)
    ensures Upsert(devices, d) == match IndexOfDevice(devices, d.deviceId)
      case Some(i) => devices[i := d]
      case None => devices + [d]
    decreases |devices|
  {
    if devices != [] && devices[0].deviceId != d.deviceId {
      UpsertAtIndex(devices[1..], d);
      match IndexOfDevice(devices[1..], d.deviceId)
      case None =>
        assert [devices[0]] + (devices[1..] + [d]) == devices + [d];
      case Some(k) =>
        ConsUpdate(devices[0], devices[1..], k, d);
        assert [devices[0]] + devices[1..] == devices;
    }
  }

  /** Updating the tail of a sequence is updating the whole one position further on. */
  lemma ConsUpdate<T>(x: T, s: seq<T>, k: nat, v: T)
    requires k < |s|
    ensures [x] + s[k := v] == ([x] + s)[k + 1 := v]
  {
  }

  /** Upsert keeps the ids unique, contains the device, and keeps every entry with another id. */
  lemma UpsertKeepsIdsUnique(devices: seq<DiscoveredDevice>, d: DiscoveredDevice)
    requires UniqueIds(devices)
    ensures var r := Upsert(devices, d);
      && UniqueIds(r)
      && d in r
      && (forall e :: e in devices && e.deviceId != d.deviceId ==> e in r)
      && (forall e :: e in r ==> e == d || (e in devices && e.deviceId != d.deviceId))
  {
    UpsertAtIndex(devices, d);
    var r := Upsert(devices, d);
    match IndexOfDevice(devices, d.deviceId)
    case Some(i) =>
      assert r[i] == d;
      forall e | e in devices && e.deviceId != d.deviceId ensures e in r {
        var j :| 0 <= j < |devices| && devices[j] == e;
        assert r[j] == e;
      }
      forall e | e in r ensures e == d || (e in devices && e.deviceId != d.deviceId) {
        var j :| 0 <= j < |r| && r[j] == e;
        if j != i {
          assert devices[j] == e && devices[j].deviceId != devices[i].deviceId;
        }
      }
    case None =>
      assert r[|devices|] == d;
      forall e | e in devices ensures e in r {
        var j :| 0 <= j < |devices| && devices[j] == e;
        assert r[j] == e;
      }
  }

  /** `removeAll { it.deviceId == id }`: the other entries, in their order. */
  function RemoveById(devices: seq<DiscoveredDevice>, id: string): (r: seq<DiscoveredDevice>)
    ensures |r| <= |devices|
    ensures forall e :: e in r <==> e in devices && e.deviceId != id
    decreases |devices|
  {
    if devices == [] then []
    else if devices[0].deviceId == id then RemoveById(devices[1..], id)
    else
      assert forall e :: e in devices <==> e == devices[0] || e in devices[1..];
      [devices[0]] + RemoveById(devices[1..], id)
  }

  /** A list with a head has unique ids exactly when its tail has and no tail entry shares the head's id. */
  lemma UniqueIdsCons(x: DiscoveredDevice, tail: seq<DiscoveredDevice>)
    ensures UniqueIds([x] + tail) <==> UniqueIds(tail) && forall e :: e in tail ==> e.deviceId != x.deviceId
  {
    var s := [x] + tail;
    if UniqueIds(s) {
      forall i, j | 0 <= i < j < |tail| ensures tail[i].deviceId != tail[j].deviceId {
        assert s[i + 1] == tail[i] && s[j + 1] == tail[j];
      }
      forall e | e in tail ensures e.deviceId != x.deviceId {
        var k :| 0 <= k < |tail| && tail[k] == e;
        assert s[0] == x && s[k + 1] == e;
      }
    }
  }

  /** Removal changes nothing when no entry has the id. */
  lemma {:induction false} RemoveByIdAbsent(devices: seq<DiscoveredDevice>, id: string)
    requires forall j :: 0 <= j < |devices| ==> devices[j].deviceId != id
    ensures RemoveById(devices, id) == devices
    decreases |devices|
  {
    if devices != [] {
      assert devices[0].deviceId != id;
      RemoveByIdAbsent(devices[1..], id);
      assert [devices[0]] + devices[1..] == devices;
    }
  }

  /** Removal keeps the ids unique. */
  lemma {:induction false} RemoveByIdKeepsUnique(devices: seq<DiscoveredDevice>, id: string)
    requires UniqueIds(devices)
    ensures UniqueIds(RemoveById(devices, id))
    decreases |devices|
  {
    if devices != [] {
      var tail := devices[1..];
      assert devices == [devices[0]] + tail;
      UniqueIdsCons(devices[0], tail);
      RemoveByIdKeepsUnique(tail, id);
      if devices[0].deviceId != id {
        UniqueIdsCons(devices[0], RemoveById(tail, id));
      }
    }
  }

  /** Removal filters each part of a list separately, so the kept entries stay in their order. */
  lemma {:induction false} RemoveByIdConcat(a: seq<DiscoveredDevice>, b: seq<DiscoveredDevice>, id: string)
    ensures RemoveById(a + b, id) == RemoveById(a, id) + RemoveById(b, id)
    decreases |a|
  {
    if a == [] {
      assert a + b == b;
    } else {
      assert (a + b)[0] == a[0] && (a + b)[1..] == a[1..] + b;
      RemoveByIdConcat(a[1..], b, id);
    }
  }

  /** On a list with unique ids, removing the id at index `i` cuts out exactly that entry. */
  lemma {:induction false} RemoveByIdAt(devices: seq<DiscoveredDevice>, id: string, i: nat)
    requires UniqueIds(devices) && i < |devices| && devices[i].deviceId == id
    ensures RemoveById(devices, id) == devices[..i] + devices[i + 1..]
    decreases i
  {
    var tail := devices[1..];
    assert devices == [devices[0]] + tail;
    UniqueIdsCons(devices[0], tail);
    if i == 0 {
      forall j | 0 <= j < |tail| ensures tail[j].deviceId != id {
        assert tail[j] in tail;
      }
      RemoveByIdAbsent(tail, id);
    } else {
      assert devices[0].deviceId != id by {
        assert devices[i] in tail by { assert tail[i - 1] == devices[i]; }
      }
      assert tail[i - 1] == devices[i];
      RemoveByIdAt(tail, id, i - 1);
      assert devices[..i] == [devices[0]] + tail[..i - 1];
      assert devices[i + 1..] == tail[i..];
    }
  }

  /** A device that was new to the list is forgotten again by removing its id. */
  lemma {:induction false} RemoveUndoesNewUpsert(devices: seq<DiscoveredDevice>, d: DiscoveredDevice)
    requires forall j :: 0 <= j < |devices| ==> devices[j].deviceId != d.deviceId
    ensures RemoveById(Upsert(devices, d), d.deviceId) == devices
    decreases |devices|
  {
    if devices != [] {
      RemoveUndoesNewUpsert(devices[1..], d);
      assert [devices[0]] + devices[1..] == devices;
    }
  }

  /** Kotlin `lastIndexOf(c)`. */
  function LastIndexOf(s: string, c: char): (r: Option<nat>)
    ensures r.None? <==> c !in s
    ensures r.Some? ==> r.value < |s| && s[r.value] == c && c !in s[r.value + 1..]
    decreases |s|
  {
    if s == [] then None
    else if s[|s| - 1] == c then Some(|s| - 1)
    else
      var r := LastIndexOf(s[..|s| - 1], c);
      assert s == s[..|s| - 1] + [s[|s| - 1]];
      if r.Some? then
        assert s[r.value + 1..] == s[..|s| - 1][r.value + 1..] + [s[|s| - 1]];
        r
      else r
  }

  /** `substringAfterLast('_').ifEmpty { serviceName }`. */
  function ExtractDeviceId(serviceName: string): (id: string)
    ensures id == serviceName || (id != [] && '_' !in id)
    ensures id != serviceName ==>
      exists k :: 0 <= k < |serviceName| && serviceName[k] == '_' && '_' !in serviceName[k + 1..] && id == serviceName[k + 1..]
    ensures forall k :: 0 <= k < |serviceName| - 1 && serviceName[k] == '_' && '_' !in serviceName[k + 1..] ==> id == serviceName[k + 1..]
  {
    var after := match LastIndexOf(serviceName, '_')
      case None => serviceName
      case Some(k) => serviceName[k + 1..];
    if after == [] then serviceName else after
  }

  /** The name this device registers under. */
  function ServiceNameOf(deviceId: string): string {
    SERVICE_NAME + "_" + deviceId
  }

  /** The last separator of `p + [c] + id` is the one before `id` when `id` has none. */
  lemma {:induction false} LastIndexOfBefore(p: string, c: char, id: string)
    requires c !in id
    ensures LastIndexOf(p + [c] + id, c) == Some(|p|)
    decreases |id|
  {
    var s := p + [c] + id;
    if id != [] {
      var id' := id[..|id| - 1];
      assert s[..|s| - 1] == p + [c] + id';
      assert s[|s| - 1] == id[|id| - 1];
      LastIndexOfBefore(p, c, id');
    }
  }

  /** A peer's id is read back from the name it registered, when the id is underscore-free and non-empty. */
  lemma ExtractFromServiceName(deviceId: string)
    requires deviceId != [] && '_' !in deviceId
    ensures ExtractDeviceId(ServiceNameOf(deviceId)) == deviceId
  {
    var name := ServiceNameOf(deviceId);
    assert name == SERVICE_NAME + ['_'] + deviceId;
    LastIndexOfBefore(SERVICE_NAME, '_', deviceId);
    assert name[|SERVICE_NAME| + 1..] == deviceId;
  }

  /** This device's own registration always matches the self-filter. */
  lemma OwnServiceIsFiltered(deviceId: string)
    ensures Contains(ServiceNameOf(deviceId), deviceId)
  {
    ContainsSuffix(SERVICE_NAME + "_", deviceId);
  }

  // ---------------------------------------------------------------------------
  // Protocol messages
  // ---------------------------------------------------------------------------

  /** createSyncRequest: header fields and every local receipt and collection. */
  function CreateSyncRequest(deviceId: string, deviceName: string, now: int64, s: Store): (q: JFields)
    requires s.Valid()
    ensures q.Keys == {"type", "deviceId", "deviceName", "timestamp", "version", "receipts", "collections"}
    ensures q["deviceId"] == JString(deviceId) && q["deviceName"] == JString(deviceName) && q["timestamp"] == JNumber(now)
    ensures q["receipts"].JArray? && |q["receipts"].items| == |s.receipts.order|
    ensures q["collections"].JArray? && |q["collections"].items| == |s.collections.order|
  {
    map[
      "type" := JString("SYNC_REQUEST"),
      "deviceId" := JString(deviceId),
      "deviceName" := JString(deviceName),
      "timestamp" := JNumber(now),
      "version" := JString("1.0"),
      "receipts" := JArray(ReceiptsJson(s.receipts)),
      "collections" := JArray(CollectionsJson(s.collections))]
  }

  /**
   * createSyncResponse: merge the request's data (only when it has a "receipts"
   * key), then answer with every receipt and collection after the merge.
   */
  function Respond(s: Store, request: JFields, deviceId: string, deviceName: string, now: int64): (r: (Store, JFields))
    requires s.Valid()
    ensures r.0.Valid()
  {
    ProcessPayloadKeepsValid(s, request);
    var merged := if "receipts" in request then ProcessPayload(s, request).0 else s;
    (merged, map[
      "type" := JString("SYNC_RESPONSE"),
      "deviceId" := JString(deviceId),
      "deviceName" := JString(deviceName),
      "timestamp" := JNumber(now),
      "receipts" := JArray(ReceiptsJson(merged.receipts)),
      "collections" := JArray(CollectionsJson(merged.collections))])
  }

  /** A request carries the sender's whole database, readable row for row by the receiver. */
  lemma RequestCarriesStore(deviceId: string, deviceName: string, now: int64, s: Store)
    requires s.Valid()
    ensures var q := CreateSyncRequest(deviceId, deviceName, now, s);
      && q["type"] == JString("SYNC_REQUEST") && q["version"] == JString("1.0")
      && q["receipts"].JArray? && ReceiptsParseTo(q["receipts"].items, s.receipts.All())
      && q["collections"].JArray? && CollectionsParseTo(q["collections"].items, s.collections.All())
  {
    ReceiptsJsonParses(s.receipts);
    CollectionsJsonParses(s.collections);
  }

  /**
   * The response is the merge result: it carries, row for row, the responder's
   * tables after merging the request, and no "version" key.
   */
  lemma ResponseCarriesMergedStore(s: Store, request: JFields, deviceId: string, deviceName: string, now: int64)
    requires s.Valid()
    ensures var (merged, q) := Respond(s, request, deviceId, deviceName, now);
      && merged == (if "receipts" in request then ProcessPayload(s, request).0 else s)
      && q["type"] == JString("SYNC_RESPONSE") && "version" !in q
      && q["receipts"].JArray? && ReceiptsParseTo(q["receipts"].items, merged.receipts.All())
      && q["collections"].JArray? && CollectionsParseTo(q["collections"].items, merged.collections.All())
  {
    var (merged, q) := Respond(s, request, deviceId, deviceName, now);
    ReceiptsJsonParses(merged.receipts);
    CollectionsJsonParses(merged.collections);
  }

  /** A request without a "receipts" key is not merged at all, even when it carries collections. */
  lemma CollectionsOnlyRequestIgnored(s: Store, request: JFields, deviceId: string, deviceName: string, now: int64)
    requires s.Valid() && "receipts" !in request
    ensures Respond(s, request, deviceId, deviceName, now).0 == s
  {
  }

  // ---------------------------------------------------------------------------
  // Syncing with peers
  // ---------------------------------------------------------------------------

  /** syncWithDevice: the local store after the exchange, and the per-peer result. */
  function PeerSync(s: Store, reply: Exchange, now: int64): (r: (Store, SyncResult))
    ensures s.Valid() ==> r.0.Valid()
  {
    match reply
    case Failed(message) => (s, SyncResult(false, now, 0, 0, 0, 0, Some(message)))
    case NoReply => (s, SyncResult(true, now, 1, 0, 0, 0, None))
    case Reply(payload) =>
      ProcessPayloadKeepsValid(s, payload);
      var (s', t) := ProcessPayload(s, payload);
      (s', SyncResult(true, now, 1, t.receipts, t.collections, t.conflicts, None))
  }

  /** A peer that closes without answering still counts as a successful sync, with nothing merged. */
  lemma SilentPeerSucceeds(s: Store, now: int64)
    ensures PeerSync(s, NoReply, now) == (s, SyncResult(true, now, 1, 0, 0, 0, None))
  {
  }

  /** A failed exchange changes nothing locally and reports the error. */
  lemma FailedPeerChangesNothing(s: Store, message: string, now: int64)
    ensures PeerSync(s, Failed(message), now).0 == s
    ensures var r := PeerSync(s, Failed(message), now).1;
      !r.success && r.devicesSync == 0 && r.receiptsSync == 0 && r.collectionsSync == 0
      && r.conflicts == 0 && r.errorMessage == Some(message)
  {
  }

  /** A successful peer's counts are bounded by the sizes of the arrays it sent. */
  lemma PeerCountsBounded(s: Store, payload: JFields, now: int64)
    ensures var r := PeerSync(s, Reply(payload), now).1;
      && r.success && r.devicesSync == 1
      && r.receiptsSync <= ArrayLength(payload, "receipts")
      && r.collectionsSync <= ArrayLength(payload, "collections")
      && r.receiptsSync + r.collectionsSync + r.conflicts
         <= ArrayLength(payload, "receipts") + ArrayLength(payload, "collections")
  {
    TallyBound(s, payload);
  }

  /** The peers in list order, each merging into the store the previous one left. */
  function SyncPeers(s: Store, replies: seq<Exchange>, now: int64): (r: (Store, seq<SyncResult>))
    ensures |r.1| == |replies|
    ensures s.Valid() ==> r.0.Valid()
    decreases |replies|
  {
    if replies == [] then (s, [])
    else
      var (s1, results) := SyncPeers(s, replies[..|replies| - 1], now);
      var (s2, result) := PeerSync(s1, replies[|replies| - 1], now);
      (s2, results + [result])
  }

  /** The running totals of syncWithAllDevices. */
  datatype Totals = Totals(devices: nat, receipts: nat, collections: nat, conflicts: nat)

  /** Sums over the successful peers only; a failed peer adds nothing. */
  function Aggregate(results: seq<SyncResult>): Totals
    decreases |results|
  {
    if results == [] then Totals(0, 0, 0, 0)
    else
      var t := Aggregate(results[..|results| - 1]);
      var r := results[|results| - 1];
      if r.success then Totals(t.devices + 1, t.receipts + r.receiptsSync,
                               t.collections + r.collectionsSync, t.conflicts + r.conflicts)
      else t
  }

  /** The peer loop one peer further. */
  lemma SyncPeersNext(s: Store, replies: seq<Exchange>, i: nat, now: int64)
    requires i < |replies|
    ensures var (s1, results) := SyncPeers(s, replies[..i], now);
      SyncPeers(s, replies[..i + 1], now) == (PeerSync(s1, replies[i], now).0, results + [PeerSync(s1, replies[i], now).1])
  {
    assert replies[..i + 1][..i] == replies[..i];
  }

  /** The totals one result further. */
  lemma AggregateNext(results: seq<SyncResult>, r: SyncResult)
    ensures var t := Aggregate(results);
      Aggregate(results + [r]) == if r.success then Totals(t.devices + 1, t.receipts + r.receiptsSync,
                                                         t.collections + r.collectionsSync, t.conflicts + r.conflicts)
                                  else t
  {
    assert (results + [r])[..|results|] == results;
  }

  /** Kotlin's count of successful peers. */
  function Successes(results: seq<SyncResult>): nat
    decreases |results|
  {
    if results == [] then 0
    else Successes(results[..|results| - 1]) + (if results[|results| - 1].success then 1 else 0)
  }

  /**
   * The device total is the number of successful peers, never more than the
   * peers tried, and positive exactly when some peer succeeded.
   */
  lemma {:induction false} AggregateDevices(results: seq<SyncResult>)
    ensures Aggregate(results).devices == Successes(results)
    ensures Successes(results) <= |results|
    ensures Successes(results) > 0 <==> exists i :: 0 <= i < |results| && results[i].success
    decreases |results|
  {
    if results != [] {
      var init := results[..|results| - 1];
      AggregateDevices(init);
      if Successes(results) > 0 && !results[|results| - 1].success {
        var i :| 0 <= i < |init| && init[i].success;
        assert results[i] == init[i];
      }
      if exists i :: 0 <= i < |results| && results[i].success {
        var i :| 0 <= i < |results| && results[i].success;
        if i < |init| {
          assert init[i] == results[i];
        }
      }
    }
  }

  /** The totals over two batches are the sums of their totals. */
  lemma {:induction false} AggregateAppend(a: seq<SyncResult>, b: seq<SyncResult>)
    ensures var x, y, z := Aggregate(a), Aggregate(b), Aggregate(a + b);
      z == Totals(x.devices + y.devices, x.receipts + y.receipts, x.collections + y.collections, x.conflicts + y.conflicts)
    decreases |b|
  {
    if b == [] {
      assert a + b == a;
    } else {
      var b' := b[..|b| - 1];
      AggregateAppend(a, b');
      assert (a + b)[..|a + b| - 1] == a + b';
    }
  }

  /** The result of syncWithAllDevices for a non-empty peer list. */
  function Summary(results: seq<SyncResult>, now: int64): SyncResult {
    var t := Aggregate(results);
    SyncResult(t.devices > 0, now, t.devices, t.receipts, t.collections, t.conflicts, None)
  }

  /** The result of syncWithAllDevices when no peer has been found. */
  function NoDevicesResult(now: int64): SyncResult {
    SyncResult(false, now, 0, 0, 0, 0, Some("No devices found"))
  }

  /** The statistics map of getSyncStatistics; absent last results read as zero or false. */
  datatype SyncStatistics = SyncStatistics(
    discoveredDevices: nat,
    networkStatus: string,
    isDiscovering: bool,
    lastSyncTime: int64,
    lastSyncSuccess: bool,
    totalDevicesSync: nat,
    totalReceiptsSync: nat,
    totalCollectionsSync: nat,
    totalConflicts: nat)

  function StatisticsOf(devices: nat, status: NetworkStatus, discovering: bool, last: Option<SyncResult>): SyncStatistics {
    match last
    case None => SyncStatistics(devices, status.Name(), discovering, 0, false, 0, 0, 0, 0)
    case Some(r) => SyncStatistics(devices, status.Name(), discovering, r.timestamp, r.success,
                                   r.devicesSync, r.receiptsSync, r.collectionsSync, r.conflicts)
  }

  /**
   * After a multi-device sync the statistics report it: the device total is the
   * number of successful peers, at most the number of peers, and the success flag
   * says whether there was any.
   */
  lemma StatisticsAfterSync(devices: nat, status: NetworkStatus, discovering: bool, results: seq<SyncResult>, now: int64)
    ensures var st := StatisticsOf(devices, status, discovering, Some(Summary(results, now)));
      && st.lastSyncTime == now
      && st.totalDevicesSync == Successes(results) <= |results|
      && (st.lastSyncSuccess <==> exists i :: 0 <= i < |results| && results[i].success)
  {
    AggregateDevices(results);
  }

  // ---------------------------------------------------------------------------
  // The helper object
  // ---------------------------------------------------------------------------

  class DeviceDiscoveryHelper {
    const db: Database
    const statusManager: SyncStatus.SyncStatusManager
    /** This device's id and name, as the device manager reports them. */
    const deviceId: string
    const deviceName: string
    var discoveredDevices: seq<DiscoveredDevice>
    var isDiscovering: bool
    var networkStatus: NetworkStatus
    var syncProgress: SyncProgress
    var lastSyncResult: Option<SyncResult>
    /** Set by the registration listener once this device's service is published. */
    var isServiceRegistered: bool

    ghost predicate Valid()
      reads this, db
    {
      && db.Valid()
      && statusManager.db == db
      && statusManager.deviceId == deviceId
      && UniqueIds(discoveredDevices)
    }

    constructor (db: Database, statusManager: SyncStatus.SyncStatusManager, deviceId: string, deviceName: string)
      requires db.Valid() && statusManager.db == db && statusManager.deviceId == deviceId
      ensures Valid()
      ensures this.db == db && this.statusManager == statusManager
      ensures this.deviceId == deviceId && this.deviceName == deviceName
      ensures discoveredDevices == [] && !isDiscovering && networkStatus == Disconnected
      ensures syncProgress == IdleProgress && lastSyncResult == None && !isServiceRegistered
    {
      this.db := db;
      this.statusManager := statusManager;
      this.deviceId := deviceId;
      this.deviceName := deviceName;
      discoveredDevices := [];
      isDiscovering := false;
      networkStatus := Disconnected;
      syncProgress := IdleProgress;
      lastSyncResult := None;
      isServiceRegistered := false;
    }

    /**
     * initialize: the server is launched and the service registered, then the
     * network status is CONNECTED. A registration the platform refuses at once
     * is caught inside registerService, which reports SYNC_ERROR, and the
     * status is then overwritten with CONNECTED all the same.
     */
    method Initialize(registerThrows: bool)
      modifies this`networkStatus
      ensures networkStatus == Connected
    {
      RegisterService(registerThrows);
      networkStatus := Connected;
    }

    /** registerService: a refused registration is caught and reported as SYNC_ERROR; otherwise nothing changes yet. */
    method RegisterService(registerThrows: bool)
      modifies this`networkStatus
      ensures networkStatus == if registerThrows then SyncError else old(networkStatus)
    {
      if registerThrows {
        networkStatus := SyncError;
      }
    }

    /** The registration listener's onServiceRegistered: registered, and the network is CONNECTED. */
    method OnServiceRegistered()
      modifies this`isServiceRegistered, this`networkStatus
      ensures isServiceRegistered && networkStatus == Connected
    {
      isServiceRegistered := true;
      networkStatus := Connected;
    }

    /** The registration listener's onRegistrationFailed: only the network status changes, to SYNC_ERROR. */
    method OnRegistrationFailed()
      modifies this`networkStatus
      ensures networkStatus == SyncError
    {
      networkStatus := SyncError;
    }

    /** The registration listener's onServiceUnregistered: no longer registered. */
    method OnServiceUnregistered()
      modifies this`isServiceRegistered
      ensures !isServiceRegistered
    {
      isServiceRegistered := false;
    }

    /**
     * startDiscovery: a no-op while discovering; otherwise the flag is raised and,
     * if the platform refuses to start, lowered again with a sync error.
     */
    method StartDiscovery(discoverFails: bool)
      modifies this`isDiscovering, this`syncProgress, this`networkStatus
      ensures old(isDiscovering) ==>
        isDiscovering && syncProgress == old(syncProgress) && networkStatus == old(networkStatus)
      ensures !old(isDiscovering) ==>
        && isDiscovering == !discoverFails
        && syncProgress == SyncProgress(Discovering, "Discovering devices...", 0, 0)
        && networkStatus == (if discoverFails then SyncError else old(networkStatus))
    {
      if isDiscovering {
        return;
      }
      isDiscovering := true;
      syncProgress := SyncProgress(Discovering, "Discovering devices...", 0, 0);
      if discoverFails {
        isDiscovering := false;
        networkStatus := SyncError;
      }
    }

    /** The discovery listener's onDiscoveryStarted: the network is marked available for sync. */
    method OnDiscoveryStarted()
      modifies this`networkStatus
      ensures networkStatus == SyncAvailable
    {
      networkStatus := SyncAvailable;
    }

    /** The discovery listener's onStartDiscoveryFailed: the flag is lowered with a sync error. */
    method OnStartDiscoveryFailed()
      modifies this`isDiscovering, this`networkStatus
      ensures !isDiscovering && networkStatus == SyncError
    {
      isDiscovering := false;
      networkStatus := SyncError;
    }

    /** The discovery listener's onDiscoveryStopped: only the flag is lowered. */
    method OnDiscoveryStopped()
      modifies this`isDiscovering
      ensures !isDiscovering
    {
      isDiscovering := false;
    }

    /** stopDiscovery: a no-op while not discovering; a refused stop leaves everything as it was. */
    method StopDiscovery(stopFails: bool)
      modifies this`isDiscovering, this`syncProgress
      ensures !old(isDiscovering) || stopFails ==>
        isDiscovering == old(isDiscovering) && syncProgress == old(syncProgress)
      ensures old(isDiscovering) && !stopFails ==> !isDiscovering && syncProgress == IdleProgress
    {
      if !isDiscovering {
        return;
      }
      if !stopFails {
        isDiscovering := false;
        syncProgress := IdleProgress;
      }
    }

    /**
     * cleanup: discovery is stopped as stopDiscovery does; unregistering the
     * service and closing the server act through the platform, and their
     * listener effect is OnServiceUnregistered.
     */
    method Cleanup(stopFails: bool)
      modifies this`isDiscovering, this`syncProgress
      ensures !old(isDiscovering) || stopFails ==>
        isDiscovering == old(isDiscovering) && syncProgress == old(syncProgress)
      ensures old(isDiscovering) && !stopFails ==> !isDiscovering && syncProgress == IdleProgress
    {
      StopDiscovery(stopFails);
    }

    /** addDiscoveredDevice. */
    method AddDiscoveredDevice(device: DiscoveredDevice)
      requires Valid()
      modifies this`discoveredDevices
      ensures Valid()
      ensures discoveredDevices == Upsert(old(discoveredDevices), device)
    {
      UpsertAtIndex(discoveredDevices, device);
      UpsertKeepsIdsUnique(discoveredDevices, device);
      var currentDevices := discoveredDevices;
      var existingIndex := IndexOfDevice(currentDevices, device.deviceId);
      if existingIndex.Some? {
        currentDevices := currentDevices[existingIndex.value := device];
      } else {
        currentDevices := currentDevices + [device];
      }
      discoveredDevices := currentDevices;
    }

    /** removeDiscoveredDevice: every entry with the id read from the service name goes. */
    method RemoveDiscoveredDevice(serviceName: string)
      requires Valid()
      modifies this`discoveredDevices
      ensures Valid()
      ensures discoveredDevices == RemoveById(old(discoveredDevices), ExtractDeviceId(serviceName))
    {
      var id := ExtractDeviceId(serviceName);
      RemoveByIdKeepsUnique(discoveredDevices, id);
      discoveredDevices := RemoveById(discoveredDevices, id);
    }

    /**
     * The resolve callback: a service whose name contains this device's id is
     * ignored; any other becomes (or replaces) the peer with the id in its name.
     */
    method OnServiceResolved(serviceName: string, hostAddress: Option<string>, port: int32, now: int64)
      requires Valid()
      modifies this`discoveredDevices
      ensures Valid()
      ensures Contains(serviceName, deviceId) ==> discoveredDevices == old(discoveredDevices)
      ensures !Contains(serviceName, deviceId) ==>
        discoveredDevices == Upsert(old(discoveredDevices), DiscoveredDevice(
          ExtractDeviceId(serviceName), serviceName, hostAddress.GetOr(""), port, Both,
          ["SYNC", "RECEIPT_CREATION", "RECEIPT_COLLECTION"], now, 0))
    {
      if Contains(serviceName, deviceId) {
        return;
      }
      var device := DiscoveredDevice(ExtractDeviceId(serviceName), serviceName, hostAddress.GetOr(""), port,
                                     Both, ["SYNC", "RECEIPT_CREATION", "RECEIPT_COLLECTION"], now, 0);
      AddDiscoveredDevice(device);
    }

    /** The service-lost callback. */
    method OnServiceLost(serviceName: string)
      requires Valid()
      modifies this`discoveredDevices
      ensures Valid()
      ensures discoveredDevices == RemoveById(old(discoveredDevices), ExtractDeviceId(serviceName))
    {
      RemoveDiscoveredDevice(serviceName);
    }

    /** processIncomingReceipt. */
    method ProcessIncomingReceipt(receiptJson: JFields) returns (outcome: Outcome)
      requires Valid()
      modifies db`store
      ensures Valid()
      ensures (db.store, outcome) == ApplyReceipt(old(db.store), receiptJson)
    {
      MergeReceiptKeepsValid(db.store, receiptJson);
      var parsed := ParseReceipt(receiptJson);
      if parsed.None? {
        return Outcome.Error;
      }
      var incoming := parsed.value;
      var existing := db.store.receipts.Get(incoming.id);
      if existing.None? {
        db.store := db.store.(receipts := db.store.receipts.Put(incoming.id, incoming.(syncStatus := SYNCED)));
        outcome := Synced;
      } else if incoming.version > existing.value.version {
        db.store := db.store.(receipts := db.store.receipts.Put(incoming.id, incoming.(syncStatus := SYNCED)));
        outcome := Synced;
      } else if incoming.lastModified > existing.value.lastModified {
        db.store := db.store.(receipts := db.store.receipts.Put(incoming.id, incoming.(syncStatus := SYNCED)));
        outcome := Synced;
      } else {
        db.store := db.store.(receipts := db.store.receipts.Put(incoming.id, existing.value.(syncStatus := CONFLICT)));
        outcome := Conflict;
      }
    }

    /** processIncomingCollection. */
    method ProcessIncomingCollection(collectionJson: JFields) returns (outcome: Outcome)
      requires Valid()
      modifies db`store
      ensures Valid()
      ensures (db.store, outcome) == ApplyCollection(old(db.store), collectionJson)
    {
      MergeCollectionKeepsValid(db.store, collectionJson);
      var parsed := ParseCollection(collectionJson);
      if parsed.None? {
        return Outcome.Error;
      }
      var incoming := parsed.value;
      var existing := db.store.collections.Get(incoming.id);
      if existing.None? {
        db.store := db.store.(collections := db.store.collections.Put(incoming.id, incoming.(syncStatus := SYNCED)));
        db.store := db.store.(receipts := MarkCollected(db.store.receipts, incoming.receiptId));
        outcome := Synced;
      } else if incoming.lastModified > existing.value.lastModified {
        db.store := db.store.(collections := db.store.collections.Put(incoming.id, incoming.(syncStatus := SYNCED)));
        outcome := Synced;
      } else {
        db.store := db.store.(collections := db.store.collections.Put(incoming.id, existing.value.(syncStatus := CONFLICT)));
        outcome := Conflict;
      }
    }

    /** One element of the "receipts" loop: an object is merged and counted, anything else throws. */
    method MergeReceiptElement(item: JValue, tally: Tally) returns (counted: Tally, failed: bool)
      requires Valid()
      modifies db`store
      ensures Valid()
      ensures ReceiptStep(Progress(old(db.store), tally, false), item) == Progress(db.store, counted, failed)
    {
      counted, failed := tally, false;
      if !item.JObject? {
        failed := true;
      } else {
        var result := ProcessIncomingReceipt(item.fields);
        match result
        case Synced => counted := counted.(receipts := counted.receipts + 1);
        case Conflict => counted := counted.(conflicts := counted.conflicts + 1);
        case Error =>
      }
    }

    /** One element of the "collections" loop. */
    method MergeCollectionElement(item: JValue, tally: Tally) returns (counted: Tally, failed: bool)
      requires Valid()
      modifies db`store
      ensures Valid()
      ensures CollectionStep(Progress(old(db.store), tally, false), item) == Progress(db.store, counted, failed)
    {
      counted, failed := tally, false;
      if !item.JObject? {
        failed := true;
      } else {
        var result := ProcessIncomingCollection(item.fields);
        match result
        case Synced => counted := counted.(collections := counted.collections + 1);
        case Conflict => counted := counted.(conflicts := counted.conflicts + 1);
        case Error =>
      }
    }

    /** The loop over a "receipts" array; `failed` is the exception that ends it early. */
    method MergeReceiptsArray(items: seq<JValue>) returns (tally: Tally, failed: bool)
      requires Valid()
      modifies db`store
      ensures Valid()
      ensures FoldReceipts(Progress(old(db.store), NoTally, false), items) == Progress(db.store, tally, failed)
    {
      ghost var p0 := Progress(db.store, NoTally, false);
      tally, failed := NoTally, false;
      var i := 0;
      while i < |items| && !failed
        invariant i <= |items|
        invariant FoldReceipts(p0, items[..i]) == Progress(db.store, tally, failed)
        invariant Valid()
      {
        FoldReceiptsNext(p0, items, i);
        tally, failed := MergeReceiptElement(items[i], tally);
        i := i + 1;
      }
      if failed {
        FoldReceiptsAbortedStable(p0, items, i);
      } else {
        assert items[..i] == items;
      }
    }

    /** The loop over a "collections" array, continuing the counts of the receipts loop. */
    method MergeCollectionsArray(items: seq<JValue>, start: Tally) returns (tally: Tally, failed: bool)
      requires Valid()
      modifies db`store
      ensures Valid()
      ensures FoldCollections(Progress(old(db.store), start, false), items) == Progress(db.store, tally, failed)
    {
      ghost var p0 := Progress(db.store, start, false);
      tally, failed := start, false;
      var i := 0;
      while i < |items| && !failed
        invariant i <= |items|
        invariant FoldCollections(p0, items[..i]) == Progress(db.store, tally, failed)
        invariant Valid()
      {
        FoldCollectionsNext(p0, items, i);
        tally, failed := MergeCollectionElement(items[i], tally);
        i := i + 1;
      }
      if failed {
        FoldCollectionsAbortedStable(p0, items, i);
      } else {
        assert items[..i] == items;
      }
    }

    /**
     * processSyncResponse: every receipt, then every collection, counting the
     * outcomes; an element that is not an object (or a value under "receipts" or
     * "collections" that is not an array) ends the batch, keeping what was merged
     * and counted before it.
     */
    method ProcessSyncResponse(response: JFields) returns (tally: Tally)
      requires Valid()
      modifies db`store
      ensures Valid()
      ensures (db.store, tally) == ProcessPayload(old(db.store), response)
    {
      ghost var p0 := Progress(db.store, NoTally, false);
      tally := NoTally;
      var failed := false;
      if "receipts" in response {
        if !response["receipts"].JArray? {
          failed := true;
        } else {
          tally, failed := MergeReceiptsArray(response["receipts"].items);
        }
      }
      ghost var p1 := Progress(db.store, tally, failed);
      assert p1 == ReceiptsPhase(p0, response);
      if !failed && "collections" in response {
        if !response["collections"].JArray? {
          failed := true;
        } else {
          tally, failed := MergeCollectionsArray(response["collections"].items, tally);
        }
      }
      assert Progress(db.store, tally, failed) == CollectionsPhase(p1, response);
    }

    /** The request this device sends. */
    method CreateSyncRequestNow(now: int64) returns (request: JFields)
      requires Valid()
      ensures request == CreateSyncRequest(deviceId, deviceName, now, db.store)
    {
      request := CreateSyncRequest(deviceId, deviceName, now, db.store);
    }

    /** createSyncResponse. */
    method CreateSyncResponse(request: JFields, now: int64) returns (response: JFields)
      requires Valid()
      modifies db`store
      ensures Valid()
      ensures (db.store, response) == Respond(old(db.store), request, deviceId, deviceName, now)
    {
      if "receipts" in request {
        var _ := ProcessSyncResponse(request);
      }
      var syncData := CreateSyncRequestNow(now);
      response := map[
        "type" := JString("SYNC_RESPONSE"),
        "deviceId" := JString(deviceId),
        "deviceName" := JString(deviceName),
        "timestamp" := JNumber(now),
        "receipts" := syncData["receipts"],
        "collections" := syncData["collections"]];
    }

    /**
     * handleSyncRequest: no line, or a line that is not a JSON object, is
     * answered with nothing; an object is merged and answered.
     */
    method HandleSyncRequest(requestLine: Option<JValue>, now: int64) returns (reply: Option<JFields>)
      requires Valid()
      modifies db`store
      ensures Valid()
      ensures match requestLine
        case Some(JObject(request)) =>
          var (s, q) := Respond(old(db.store), request, deviceId, deviceName, now);
          db.store == s && reply == Some(q)
        case _ => db.store == old(db.store) && reply == None
    {
      reply := None;
      if requestLine.Some? && requestLine.value.JObject? {
        var response := CreateSyncResponse(requestLine.value.fields, now);
        reply := Some(response);
      }
    }

    /** syncWithDevice: send the request, then merge whatever came back. */
    method SyncWithDevice(reply: Exchange, now: int64) returns (request: JFields, result: SyncResult)
      requires Valid()
      modifies db`store
      ensures Valid()
      ensures request == CreateSyncRequest(deviceId, deviceName, now, old(db.store))
      ensures (db.store, result) == PeerSync(old(db.store), reply, now)
    {
      request := CreateSyncRequestNow(now);
      var receiptCount, collectionCount, conflictCount := 0, 0, 0;
      if reply.Failed? {
        return request, SyncResult(false, now, 0, 0, 0, 0, Some(reply.message));
      }
      if reply.Reply? {
        var syncResults := ProcessSyncResponse(reply.payload);
        receiptCount, collectionCount, conflictCount := syncResults.receipts, syncResults.collections, syncResults.conflicts;
      }
      result := SyncResult(true, now, 1, receiptCount, collectionCount, conflictCount, None);
    }

    /**
     * syncWithAllDevices: with no peers, a failure result and nothing else; otherwise
     * every peer in list order, totals over the successful ones, the result kept as
     * the last result and one "MULTI_DEVICE_SYNC" log entry.
     */
    method SyncWithAllDevices(replies: seq<Exchange>, now: int64) returns (result: SyncResult)
      requires Valid() && |replies| == |discoveredDevices|
      modifies this`syncProgress, this`lastSyncResult, db
      ensures Valid()
      ensures old(discoveredDevices) == [] ==>
        && result == NoDevicesResult(now)
        && db.store == old(db.store) && db.logs == old(db.logs)
        && syncProgress == old(syncProgress) && lastSyncResult == old(lastSyncResult)
      ensures old(discoveredDevices) != [] ==>
        var (s, results) := SyncPeers(old(db.store), replies, now);
        && db.store == s
        && result == Summary(results, now)
        && lastSyncResult == Some(result)
        && syncProgress == SyncProgress(Completed, "Sync completed", |replies|, result.devicesSync)
        && db.logs == old(db.logs) + [SyncLog(deviceId, now, "MULTI_DEVICE_SYNC", result.devicesSync,
                                              if result.success then "SUCCESS" else "PARTIAL", None)]
    {
      var devices := discoveredDevices;
      if |devices| == 0 {
        return NoDevicesResult(now);
      }
      syncProgress := SyncProgress(SyncPhase.Connecting, "Connecting to devices...", |devices|, 0);
      var totalReceipts: nat, totalCollections: nat, totalConflicts: nat, successfulDevices: nat := 0, 0, 0, 0;
      ghost var results: seq<SyncResult> := [];
      var index := 0;
      while index < |devices|
        invariant index <= |devices| && discoveredDevices == devices
        invariant Valid()
        invariant (db.store, results) == SyncPeers(old(db.store), replies[..index], now)
        invariant Aggregate(results) == Totals(successfulDevices, totalReceipts, totalCollections, totalConflicts)
        invariant db.logs == old(db.logs)
      {
        syncProgress := SyncProgress(SyncingReceipts, "Syncing with " + devices[index].deviceName + "...", |devices|, index);
        SyncPeersNext(old(db.store), replies, index, now);
        var _, syncResult := SyncWithDevice(replies[index], now);
        AggregateNext(results, syncResult);
        if syncResult.success {
          totalReceipts := totalReceipts + syncResult.receiptsSync;
          totalCollections := totalCollections + syncResult.collectionsSync;
          totalConflicts := totalConflicts + syncResult.conflicts;
          successfulDevices := successfulDevices + 1;
        }
        results := results + [syncResult];
        index := index + 1;
      }
      assert replies[..index] == replies;
      result := SyncResult(successfulDevices > 0, now, successfulDevices, totalReceipts, totalCollections, totalConflicts, None);
      syncProgress := SyncProgress(Completed, "Sync completed", |devices|, successfulDevices);
      lastSyncResult := Some(result);
      statusManager.LogSync("MULTI_DEVICE_SYNC", successfulDevices, if result.success then "SUCCESS" else "PARTIAL", None, now);
    }

    /** getSyncStatistics. */
    method GetSyncStatistics() returns (stats: SyncStatistics)
      ensures stats == StatisticsOf(|discoveredDevices|, networkStatus, isDiscovering, lastSyncResult)
    {
      var lastResult := lastSyncResult;
      if lastResult.None? {
        stats := SyncStatistics(|discoveredDevices|, networkStatus.Name(), isDiscovering, 0, false, 0, 0, 0, 0);
      } else {
        var r := lastResult.value;
        stats := SyncStatistics(|discoveredDevices|, networkStatus.Name(), isDiscovering, r.timestamp, r.success,
                                r.devicesSync, r.receiptsSync, r.collectionsSync, r.conflicts);
      }
    }
  }
}
