/**
 * The synchronised entities (a receipt, the record that it was collected, a
 * sync log entry), the keyed tables that hold them, their JSON field mapping
 * and the shared database object.
 */
module Records {
  import opened Wrappers
  import opened Json

  const SYNCED := "SYNCED"
  const PENDING := "PENDING"
  const CONFLICT := "CONFLICT"

  /** A billing event, with the fields the sync protocol reads and writes. */
  datatype Receipt = Receipt(
    id: string,
    receiptNumber: int32,
    biller: string,
    volunteer: string,
    amount: string,
    date: string,
    time: string,
    qrCode: string,
    deviceId: string,
    isCollected: bool,
    syncStatus: string,
    lastModified: int64,
    version: int32)

  /** The record that a receipt was physically collected. */
  datatype Collection = Collection(
    id: string,
    receiptId: string,
    collectorName: string,
    collectionTime: string,
    collectionDate: string,
    scannedBy: string,
    collectorDeviceId: string,
    syncStatus: string,
    lastModified: int64)

  /** One row of the sync audit log. */
  datatype SyncLog = SyncLog(
    deviceId: string,
    lastSyncTime: int64,
    syncType: string,
    recordCount: int,
    status: string,
    errorMessage: Option<string>)

  /**
   * A table keyed by record id: the rows, and the order in which "select all"
   * lists them (the order of first insertion; replacing a row keeps its place).
   */
  datatype Table<T> = Table(order: seq<string>, rows: map<string, T>) {

    ghost predicate Valid() {
      && (forall i, j :: 0 <= i < j < |order| ==> order[i] != order[j])
      && (forall k :: k in rows <==> k in order)
    }

    /** `getById`: the row with this id, if any. */
    function Get(id: string): Option<T> {
      if id in rows then Some(rows[id]) else None
    }

    /** Insert-or-replace of the row with this id. */
    function Put(id: string, v: T): (t: Table<T>)
      ensures Valid() ==> t.Valid()
      ensures t.Get(id) == Some(v)
      ensures forall k :: k != id ==> t.Get(k) == Get(k)
      ensures t.order == if id in rows then order else order + [id]
    {
      if id in rows then Table(order, rows[id := v]) else Table(order + [id], rows[id := v])
    }

    /** "Select all": every row once, in table order. */
    function All(): (s: seq<T>)
      requires Valid()
      ensures |s| == |order|
      ensures forall i :: 0 <= i < |order| ==> order[i] in rows && s[i] == rows[order[i]]
    {
      seq(|order|, i requires 0 <= i < |order| => rows[order[i]])
    }
  }

  function EmptyTable<T>(): (t: Table<T>)
    ensures t.Valid() && t.All() == []
  {
    Table([], map[])
  }

  /** The two synchronised tables of one device; every row is stored under its own id. */
  datatype Store = Store(receipts: Table<Receipt>, collections: Table<Collection>) {
    ghost predicate Valid() {
      && receipts.Valid() && collections.Valid()
      && (forall k :: k in receipts.rows ==> receipts.rows[k].id == k)
      && (forall k :: k in collections.rows ==> collections.rows[k].id == k)
    }
  }

  /** The receipt fields of a sync payload, under the keys the sender writes. */
  function ReceiptToJson(r: Receipt): JValue {
    JObject(map[
      "id" := JString(r.id),
      "receiptNumber" := JNumber(r.receiptNumber),
      "biller" := JString(r.biller),
      "volunteer" := JString(r.volunteer),
      "amount" := JString(r.amount),
      "date" := JString(r.date),
      "time" := JString(r.time),
      "qrCode" := JString(r.qrCode),
      "deviceId" := JString(r.deviceId),
      "isCollected" := JBool(r.isCollected),
      "syncStatus" := JString(r.syncStatus),
      "lastModified" := JNumber(r.lastModified),
      "version" := JNumber(r.version)])
  }

  /** The collection fields of a sync payload, under the keys the sender writes. */
  function CollectionToJson(c: Collection): JValue {
    JObject(map[
      "id" := JString(c.id),
      "receiptId" := JString(c.receiptId),
      "collectorName" := JString(c.collectorName),
      "collectionTime" := JString(c.collectionTime),
      "collectionDate" := JString(c.collectionDate),
      "scannedBy" := JString(c.scannedBy),
      "collectorDeviceId" := JString(c.collectorDeviceId),
      "syncStatus" := JString(c.syncStatus),
      "lastModified" := JNumber(c.lastModified)])
  }

  /** The receiver's reading of an incoming receipt: every field must be present and well typed. */
  function ParseReceipt(o: JFields): Option<Receipt> {
    var id := GetString(o, "id");
    var receiptNumber := GetInt(o, "receiptNumber");
    var biller := GetString(o, "biller");
    var volunteer := GetString(o, "volunteer");
    var amount := GetString(o, "amount");
    var date := GetString(o, "date");
    var time := GetString(o, "time");
    var qrCode := GetString(o, "qrCode");
    var deviceId := GetString(o, "deviceId");
    var isCollected := GetBoolean(o, "isCollected");
    var syncStatus := GetString(o, "syncStatus");
    var lastModified := GetLong(o, "lastModified");
    var version := GetInt(o, "version");
    if && id.Some? && receiptNumber.Some? && biller.Some? && volunteer.Some? && amount.Some?
       && date.Some? && time.Some? && qrCode.Some? && deviceId.Some? && isCollected.Some?
       && syncStatus.Some? && lastModified.Some? && version.Some?
    then
      Some(Receipt(id.value, receiptNumber.value, biller.value, volunteer.value, amount.value,
                   date.value, time.value, qrCode.value, deviceId.value, isCollected.value,
                   syncStatus.value, lastModified.value, version.value))
    else None
  }

  /** The receiver's reading of an incoming collection. */
  function ParseCollection(o: JFields): Option<Collection> {
    var id := GetString(o, "id");
    var receiptId := GetString(o, "receiptId");
    var collectorName := GetString(o, "collectorName");
    var collectionTime := GetString(o, "collectionTime");
    var collectionDate := GetString(o, "collectionDate");
    var scannedBy := GetString(o, "scannedBy");
    var collectorDeviceId := GetString(o, "collectorDeviceId");
    var syncStatus := GetString(o, "syncStatus");
    var lastModified := GetLong(o, "lastModified");
    if && id.Some? && receiptId.Some? && collectorName.Some? && collectionTime.Some?
       && collectionDate.Some? && scannedBy.Some? && collectorDeviceId.Some? && syncStatus.Some?
       && lastModified.Some?
    then
      Some(Collection(id.value, receiptId.value, collectorName.value, collectionTime.value,
                      collectionDate.value, scannedBy.value, collectorDeviceId.value,
                      syncStatus.value, lastModified.value))
    else None
  }

  /** The text fields of a serialised receipt read back unchanged. */
  lemma ReceiptTextFields(r: Receipt)
    ensures var o := ReceiptToJson(r).fields;
      && GetString(o, "id") == Some(r.id)
      && GetString(o, "biller") == Some(r.biller)
      && GetString(o, "volunteer") == Some(r.volunteer)
      && GetString(o, "amount") == Some(r.amount)
      && GetString(o, "date") == Some(r.date)
  {
  }

  lemma ReceiptOtherFields(r: Receipt)
    ensures var o := ReceiptToJson(r).fields;
      && GetString(o, "time") == Some(r.time)
      && GetString(o, "qrCode") == Some(r.qrCode)
      && GetString(o, "deviceId") == Some(r.deviceId)
      && GetString(o, "syncStatus") == Some(r.syncStatus)
      && GetBoolean(o, "isCollected") == Some(r.isCollected)
  {
  }

  lemma ReceiptNumberFields(r: Receipt)
    ensures var o := ReceiptToJson(r).fields;
      && GetInt(o, "receiptNumber") == Some(r.receiptNumber)
      && GetLong(o, "lastModified") == Some(r.lastModified)
      && GetInt(o, "version") == Some(r.version)
  {
  }

  /** What one device serialises, the other parses back field for field. */
  lemma ReceiptRoundTrip(r: Receipt)
    ensures ReceiptToJson(r).JObject?
    ensures ParseReceipt(ReceiptToJson(r).fields) == Some(r)
  {
    ReceiptTextFields(r);
    ReceiptOtherFields(r);
    ReceiptNumberFields(r);
  }

  lemma CollectionRoundTrip(c: Collection)
    ensures CollectionToJson(c).JObject?
    ensures ParseCollection(CollectionToJson(c).fields) == Some(c)
  {
    var o := CollectionToJson(c).fields;
    assert GetLong(o, "lastModified") == Some(c.lastModified);
  }

  /** The JSON arrays of a payload: every row of the table, in table order. */
  function ReceiptsJson(t: Table<Receipt>): (a: seq<JValue>)
    requires t.Valid()
    ensures |a| == |t.order|
    ensures forall i :: 0 <= i < |a| ==> a[i] == ReceiptToJson(t.All()[i])
  {
    var rows := t.All();
    seq(|rows|, i requires 0 <= i < |rows| => ReceiptToJson(rows[i]))
  }

  function CollectionsJson(t: Table<Collection>): (a: seq<JValue>)
    requires t.Valid()
    ensures |a| == |t.order|
    ensures forall i :: 0 <= i < |a| ==> a[i] == CollectionToJson(t.All()[i])
  {
    var rows := t.All();
    seq(|rows|, i requires 0 <= i < |rows| => CollectionToJson(rows[i]))
  }

  /**
   * The device's database: the two synchronised tables and the sync log.
   * Every component of the application works on the same instance.
   */
  class Database {
    var store: Store
    var logs: seq<SyncLog>

    ghost predicate Valid()
      reads this
    {
      store.Valid()
    }

    constructor ()
      ensures Valid() && store == Store(EmptyTable(), EmptyTable()) && logs == []
    {
      store := Store(EmptyTable(), EmptyTable());
      logs := [];
    }
  }
}
