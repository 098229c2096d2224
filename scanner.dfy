/**
 * The scanner's collection flow: a scan is ignored inside the per-content
 * cooldown; otherwise it is validated against the local store, a first valid
 * scan records one collection and marks the receipt collected, and the result
 * joins a bounded, newest-first history.
 */
module Scanner {
  import opened Json
  import opened Strings
  import opened Records
  import opened QrCode

  /** Two scans of the same content closer than this (milliseconds) count as one. */
  const SCAN_COOLDOWN := 2000

  /** The history keeps this many results. */
  const MAX_RESULTS := 10

  /** One line of the scan history. */
  datatype ScanResult = ScanResult(qrContent: string, timestamp: string, isValid: bool, receiptInfo: string)

  /** The outcome of the validation chain, checked in this order. */
  datatype Verdict = InvalidFormat | NotFound | AlreadyCollected | Collect(receiptId: string)

  /** `getCollectionsByReceiptId(receiptId).isNotEmpty()`. */
  predicate HasCollection(t: Table<Collection>, receiptId: string) {
    exists k :: k in t.rows && t.rows[k].receiptId == receiptId
  }

  /** validateAndProcessQR's decisions, over the store as read before the scan. */
  function Decide(s: Store, qrContent: string): (v: Verdict)
    ensures v.Collect? ==> v.receiptId in s.receipts.rows && !HasCollection(s.collections, v.receiptId)
    ensures v == InvalidFormat <==> !ValidateQRFormat(qrContent)
    ensures ValidateQRFormat(qrContent) ==>
      var receiptId := ExtractReceiptId(qrContent).value;
      v == if receiptId !in s.receipts.rows then NotFound
           else if HasCollection(s.collections, receiptId) then AlreadyCollected
           else Collect(receiptId)
  {
    if !ValidateQRFormat(qrContent) then InvalidFormat
    else
      var receiptId := ExtractReceiptId(qrContent).value;
      if receiptId !in s.receipts.rows then NotFound
      else if HasCollection(s.collections, receiptId) then AlreadyCollected
      else Collect(receiptId)
  }

  /** What an invalid result shows of the content: its first twenty characters and "...". */
  function Shortened(qrContent: string): (r: string)
    ensures 3 <= |r| <= 23 && r[|r| - 3..] == "..."
    ensures |r| - 3 <= |qrContent| && r[..|r| - 3] == qrContent[..|r| - 3] && (|qrContent| >= 20 ==> |r| == 23)
    ensures |r| - 3 == if |qrContent| <= 20 then |qrContent| else 20
  {
    Take(qrContent, 20) + "..."
  }

  /** The result line for a verdict. */
  function ResultOf(v: Verdict, qrContent: string, timeText: string): (r: ScanResult)
    ensures r.isValid <==> v.Collect?
    ensures r.timestamp == timeText
    ensures r.isValid ==> r.qrContent == qrContent
    ensures !r.isValid ==> r.qrContent == Shortened(qrContent)
    ensures v == InvalidFormat ==> r.receiptInfo == "Invalid QR Format - Not an MRP receipt"
    ensures v == NotFound ==> r.receiptInfo == "Receipt not found in database"
    ensures v == AlreadyCollected ==> r.receiptInfo == "Receipt already collected"
    ensures v.Collect? ==> r.receiptInfo == "Receipt #" + Take(v.receiptId, 8) + " - Successfully collected!"
  {
    match v
    case InvalidFormat => ScanResult(Shortened(qrContent), timeText, false, "Invalid QR Format - Not an MRP receipt")
    case NotFound => ScanResult(Shortened(qrContent), timeText, false, "Receipt not found in database")
    case AlreadyCollected => ScanResult(Shortened(qrContent), timeText, false, "Receipt already collected")
    case Collect(receiptId) =>
      ScanResult(qrContent, timeText, true, "Receipt #" + Take(receiptId, 8) + " - Successfully collected!")
  }

  /** The collection a scan records: collected by "Scanner User" through "QR Scanner", waiting to be sent. */
  function ScannedCollection(collectionId: string, receiptId: string, timeText: string, dateText: string,
                             deviceId: string, now: int64): Collection
  {
    Collection(collectionId, receiptId, "Scanner User", timeText, dateText, "QR Scanner", deviceId, PENDING, now)
  }

  /**
   * markReceiptAsCollected: insert the collection, then set the receipt's
   * collected flag and its modification time.
   */
  function Collected(s: Store, c: Collection, now: int64): (s': Store)
    requires s.Valid() && c.id !in s.collections.rows
    ensures s'.Valid()
    ensures s'.collections.rows == s.collections.rows[c.id := c]
    ensures s'.receipts.order == s.receipts.order && s'.receipts.rows.Keys == s.receipts.rows.Keys
    ensures c.receiptId in s.receipts.rows ==>
      s'.receipts.rows[c.receiptId] == s.receipts.rows[c.receiptId].(isCollected := true, lastModified := now)
    ensures forall k :: k in s.receipts.rows && k != c.receiptId ==> s'.receipts.rows[k] == s.receipts.rows[k]
  {
    var collections := s.collections.Put(c.id, c);
    var receipts := match s.receipts.Get(c.receiptId)
      case None => s.receipts
      case Some(r) => s.receipts.Put(c.receiptId, r.(isCollected := true, lastModified := now));
    Store(receipts, collections)
  }

  /** The store after a scan with verdict `v`: only a Collect verdict records anything. */
  function AfterScan(s: Store, v: Verdict, collectionId: string, timeText: string, dateText: string,
                     deviceId: string, now: int64): (s': Store)
    requires s.Valid() && collectionId !in s.collections.rows
    ensures s'.Valid()
    ensures !v.Collect? ==> s' == s
  {
    match v
    case Collect(receiptId) =>
      Collected(s, ScannedCollection(collectionId, receiptId, timeText, dateText, deviceId, now), now)
    case _ => s
  }

  /** A receipt that was collected is reported as already collected when scanned again. */
  lemma RescanReportsCollected(s: Store, qrContent: string, collectionId: string, timeText: string,
                               dateText: string, deviceId: string, now: int64)
    requires s.Valid() && collectionId !in s.collections.rows
    requires Decide(s, qrContent).Collect?
    ensures var c := ScannedCollection(collectionId, Decide(s, qrContent).receiptId, timeText, dateText, deviceId, now);
      Decide(Collected(s, c, now), qrContent) == AlreadyCollected
  {
    var receiptId := Decide(s, qrContent).receiptId;
    var c := ScannedCollection(collectionId, receiptId, timeText, dateText, deviceId, now);
    var s' := Collected(s, c, now);
    assert s'.collections.rows[collectionId].receiptId == receiptId;
  }

  /** The most recent scan time of `qrContent`, 0 when it was never scanned. */
  function LastScanTime(timestamps: map<string, int64>, qrContent: string): int64 {
    if qrContent in timestamps then timestamps[qrContent] else 0
  }

  /** `currentTime - lastScanTime < scanCooldown`, in 64-bit arithmetic. */
  predicate InCooldown(timestamps: map<string, int64>, qrContent: string, now: int64) {
    Wrap64(now - LastScanTime(timestamps, qrContent)) < SCAN_COOLDOWN
  }

  /**
   * After a scan at `t` is processed, a scan of the same content less than two
   * seconds later is ignored, while a first scan at a time of at least two
   * seconds is never ignored.
   */
  lemma CooldownAfterScan(timestamps: map<string, int64>, qrContent: string, t: int64, t': int64)
    requires t <= t' < t + SCAN_COOLDOWN
    ensures InCooldown(timestamps[qrContent := t], qrContent, t')
  {
  }

  lemma FirstScanProcessed(timestamps: map<string, int64>, qrContent: string, now: int64)
    requires qrContent !in timestamps && now >= SCAN_COOLDOWN
    ensures !InCooldown(timestamps, qrContent, now)
  {
  }

  /** A result history after a new result: the result on top, the older ones after it, at most ten. */
  predicate PushedFrom(results: seq<ScanResult>, r: ScanResult, results': seq<ScanResult>) {
    && |results'| == (if |results| + 1 > MAX_RESULTS then |results| else |results| + 1)
    && results'[0] == r
    && results'[1..] == results[..|results'| - 1]
  }

  /** The scanner's state: the history, the busy flag and the last scan time of each content. */
  class ScannerViewModel {
    const db: Database
    const deviceId: string
    var scanResults: seq<ScanResult>
    var isScanning: bool
    var scanTimestamps: map<string, int64>

    ghost predicate Valid()
      reads this, db
    {
      db.Valid() && |scanResults| <= MAX_RESULTS
    }

    constructor (db: Database, deviceId: string)
      requires db.Valid()
      ensures Valid() && this.db == db && this.deviceId == deviceId
      ensures scanResults == [] && !isScanning && scanTimestamps == map[]
    {
      this.db := db;
      this.deviceId := deviceId;
      scanResults := [];
      isScanning := false;
      scanTimestamps := map[];
    }

    /** validateReceiptExists. */
    method ValidateReceiptExists(receiptId: string) returns (exists_: bool)
      ensures exists_ <==> receiptId in db.store.receipts.rows
    {
      var receipt := db.store.receipts.Get(receiptId);
      exists_ := receipt.Some?;
    }

    /** checkReceiptCollected. */
    method CheckReceiptCollected(receiptId: string) returns (collected: bool)
      ensures collected <==> HasCollection(db.store.collections, receiptId)
    {
      collected := exists k :: k in db.store.collections.rows && db.store.collections.rows[k].receiptId == receiptId;
    }

    /** markReceiptAsCollected; the collection id is the new record's fresh UUID. */
    method MarkReceiptAsCollected(receiptId: string, collectionId: string, timeText: string, dateText: string,
                                  now: int64)
      requires Valid() && collectionId !in db.store.collections.rows
      modifies db`store
      ensures Valid()
      ensures db.store == Collected(old(db.store), ScannedCollection(collectionId, receiptId, timeText, dateText, deviceId, now), now)
    {
      var collectedReceipt := ScannedCollection(collectionId, receiptId, timeText, dateText, deviceId, now);
      var collections := db.store.collections.Put(collectedReceipt.id, collectedReceipt);
      var receipts := db.store.receipts;
      var receipt := receipts.Get(receiptId);
      if receipt.Some? {
        receipts := receipts.Put(receiptId, receipt.value.(isCollected := true, lastModified := now));
      }
      db.store := Store(receipts, collections);
    }

    /** validateAndProcessQR: the first failing check decides the result; a valid scan is recorded. */
    method ValidateAndProcessQR(qrContent: string, collectionId: string, timeText: string, dateText: string,
                                now: int64) returns (result: ScanResult)
      requires Valid() && collectionId !in db.store.collections.rows
      modifies db`store
      ensures Valid()
      ensures var v := Decide(old(db.store), qrContent);
        && result == ResultOf(v, qrContent, timeText)
        && db.store == AfterScan(old(db.store), v, collectionId, timeText, dateText, deviceId, now)
    {
      if !ValidateQRFormat(qrContent) {
        return ScanResult(Take(qrContent, 20) + "...", timeText, false, "Invalid QR Format - Not an MRP receipt");
      }
      var receiptId := ExtractReceiptId(qrContent).value;
      var isValidReceipt := ValidateReceiptExists(receiptId);
      if !isValidReceipt {
        return ScanResult(Take(qrContent, 20) + "...", timeText, false, "Receipt not found in database");
      }
      var isAlreadyCollected := CheckReceiptCollected(receiptId);
      if isAlreadyCollected {
        return ScanResult(Take(qrContent, 20) + "...", timeText, false, "Receipt already collected");
      }
      MarkReceiptAsCollected(receiptId, collectionId, timeText, dateText, now);
      result := ScanResult(qrContent, timeText, true, "Receipt #" + Take(receiptId, 8) + " - Successfully collected!");
    }

    /**
     * processScan: inside the cooldown nothing changes; otherwise the scan time
     * is recorded, the content validated and the result put on top of the
     * history, dropping the oldest beyond ten.
     */
    method ProcessScan(qrContent: string, now: int64, collectionId: string, timeText: string, dateText: string)
      requires Valid() && collectionId !in db.store.collections.rows
      modifies this`scanResults, this`isScanning, this`scanTimestamps, db`store
      ensures Valid()
      ensures InCooldown(old(scanTimestamps), qrContent, now) ==>
        && scanResults == old(scanResults) && scanTimestamps == old(scanTimestamps)
        && isScanning == old(isScanning) && db.store == old(db.store)
      ensures !InCooldown(old(scanTimestamps), qrContent, now) ==>
        var v := Decide(old(db.store), qrContent);
        && scanTimestamps == old(scanTimestamps)[qrContent := now]
        && PushedFrom(old(scanResults), ResultOf(v, qrContent, timeText), scanResults)
        && !isScanning
        && db.store == AfterScan(old(db.store), v, collectionId, timeText, dateText, deviceId, now)
    {
      var currentTime: int := now;
      var lastScanTime := if qrContent in scanTimestamps then scanTimestamps[qrContent] as int else 0;
      if Wrap64(currentTime - lastScanTime) < SCAN_COOLDOWN {
        return;
      }
      scanTimestamps := scanTimestamps[qrContent := currentTime];
      isScanning := true;
      var scanResult := ValidateAndProcessQR(qrContent, collectionId, timeText, dateText, now);
      PushResult(scanResult);
      isScanning := false;
    }

    /** Puts a result on top of the history and drops the oldest one beyond ten. */
    method PushResult(scanResult: ScanResult)
      requires |scanResults| <= MAX_RESULTS
      modifies this`scanResults
      ensures |scanResults| <= MAX_RESULTS
      ensures PushedFrom(old(scanResults), scanResult, scanResults)
    {
      var currentResults := [scanResult] + scanResults;
      if |currentResults| > MAX_RESULTS {
        currentResults := currentResults[..|currentResults| - 1];
      }
      scanResults := currentResults;
    }

    /** clearResults: the history and the cooldown times are forgotten. */
    method ClearResults()
      modifies this`scanResults, this`scanTimestamps
      ensures scanResults == [] && scanTimestamps == map[]
      ensures forall q: string, now: int64 :: now >= SCAN_COOLDOWN ==> !InCooldown(scanTimestamps, q, now)
    {
      scanResults := [];
      scanTimestamps := map[];
    }
  }
}
