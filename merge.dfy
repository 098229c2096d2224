/**
 * The conflict-resolution engine: how one incoming receipt or collection is
 * merged against the local store, and how a whole sync payload is merged and
 * tallied. These functions are the specification that the imperative sync
 * helper is proved against.
 */
module Merge {
  import opened Wrappers
  import opened Json
  import opened Records

  /** The result strings of the per-record merge: "SYNCED", "CONFLICT", "ERROR". */
  datatype Outcome = Synced | Conflict | Error {
    function Text(): string {
      match this
      case Synced => "SYNCED"
      case Conflict => "CONFLICT"
      case Error => "ERROR"
    }
  }

  /**
   * The receipt rule: the record kept under the incoming id and the outcome.
   * A higher version wins; failing that a later timestamp wins, whatever the
   * versions; otherwise the local copy is kept and flagged.
   */
  function ResolveReceipt(existing: Option<Receipt>, incoming: Receipt): (Receipt, Outcome) {
    match existing
    case None => (incoming.(syncStatus := SYNCED), Synced)
    case Some(e) =>
      if incoming.version > e.version then (incoming.(syncStatus := SYNCED), Synced)
      else if incoming.lastModified > e.lastModified then (incoming.(syncStatus := SYNCED), Synced)
      else (e.(syncStatus := CONFLICT), Conflict)
  }

  function MergeReceipt(t: Table<Receipt>, incoming: Receipt): (Table<Receipt>, Outcome) {
    var (kept, outcome) := ResolveReceipt(t.Get(incoming.id), incoming);
    (t.Put(incoming.id, kept), outcome)
  }

  /** processIncomingReceipt: a record that does not parse is an error and changes nothing. */
  function ApplyReceipt(s: Store, o: JFields): (Store, Outcome) {
    match ParseReceipt(o)
    case None => (s, Error)
    case Some(r) =>
      var (t, outcome) := MergeReceipt(s.receipts, r);
      (s.(receipts := t), outcome)
  }

  /** `updateCollectionStatus(receiptId, true)`: no row changes when the receipt is absent. */
  function MarkCollected(t: Table<Receipt>, receiptId: string): Table<Receipt> {
    match t.Get(receiptId)
    case None => t
    case Some(r) => t.Put(receiptId, r.(isCollected := true))
  }

  /** The collection rule: insert (and mark the receipt collected), later timestamp wins, or conflict. */
  function MergeCollection(s: Store, incoming: Collection): (Store, Outcome) {
    match s.collections.Get(incoming.id)
    case None =>
      (Store(MarkCollected(s.receipts, incoming.receiptId),
             s.collections.Put(incoming.id, incoming.(syncStatus := SYNCED))), Synced)
    case Some(e) =>
      if incoming.lastModified > e.lastModified then
        (s.(collections := s.collections.Put(incoming.id, incoming.(syncStatus := SYNCED))), Synced)
      else
        (s.(collections := s.collections.Put(incoming.id, e.(syncStatus := CONFLICT))), Conflict)
  }

  /** processIncomingCollection. */
  function ApplyCollection(s: Store, o: JFields): (Store, Outcome) {
    match ParseCollection(o)
    case None => (s, Error)
    case Some(c) => MergeCollection(s, c)
  }

  /** The three counters of processSyncResponse. */
  datatype Tally = Tally(receipts: nat, collections: nat, conflicts: nat) {
    function Total(): nat {
      receipts + collections + conflicts
    }
  }

  const NoTally := Tally(0, 0, 0)

  /** processSyncResponse's state part-way through: the store, the counters, and whether it threw. */
  datatype Progress = Progress(store: Store, tally: Tally, aborted: bool)

  /** The counters after one receipt outcome. */
  function CountReceipt(t: Tally, outcome: Outcome): (u: Tally)
    ensures u.collections == t.collections && u.Total() == t.Total() + (if outcome == Error then 0 else 1)
    ensures u.receipts == t.receipts + (if outcome == Synced then 1 else 0)
    ensures u.conflicts == t.conflicts + (if outcome == Conflict then 1 else 0)
  {
    match outcome
    case Synced => t.(receipts := t.receipts + 1)
    case Conflict => t.(conflicts := t.conflicts + 1)
    case Error => t
  }

  /** The counters after one collection outcome. */
  function CountCollection(t: Tally, outcome: Outcome): (u: Tally)
    ensures u.receipts == t.receipts && u.Total() == t.Total() + (if outcome == Error then 0 else 1)
    ensures u.collections == t.collections + (if outcome == Synced then 1 else 0)
    ensures u.conflicts == t.conflicts + (if outcome == Conflict then 1 else 0)
  {
    match outcome
    case Synced => t.(collections := t.collections + 1)
    case Conflict => t.(conflicts := t.conflicts + 1)
    case Error => t
  }

  /** One element of the "receipts" array; an element that is not an object throws and ends the batch. */
  function ReceiptStep(p: Progress, item: JValue): (q: Progress)
    ensures p.store.Valid() ==> q.store.Valid()
    ensures q.store.collections == p.store.collections
  {
    if p.aborted then p
    else if !item.JObject? then p.(aborted := true)
    else
      var (s, outcome) := ApplyReceipt(p.store, item.fields);
      MergeReceiptKeepsValid(p.store, item.fields);
      Progress(s, CountReceipt(p.tally, outcome), false)
  }

  /** One element of the "collections" array. */
  function CollectionStep(p: Progress, item: JValue): (q: Progress)
    ensures p.store.Valid() ==> q.store.Valid()
  {
    if p.aborted then p
    else if !item.JObject? then p.(aborted := true)
    else
      var (s, outcome) := ApplyCollection(p.store, item.fields);
      MergeCollectionKeepsValid(p.store, item.fields);
      Progress(s, CountCollection(p.tally, outcome), false)
  }

  /** The receipts loop over `items`, in order. */
  function FoldReceipts(p: Progress, items: seq<JValue>): (q: Progress)
    ensures p.store.Valid() ==> q.store.Valid()
    ensures q.store.collections == p.store.collections
    ensures q.tally.collections == p.tally.collections
    ensures q.tally.conflicts >= p.tally.conflicts
    ensures q.tally.Total() <= p.tally.Total() + |items|
    ensures p.aborted ==> q == p
    decreases |items|
  {
    if items == [] then p
    else ReceiptStep(FoldReceipts(p, items[..|items| - 1]), items[|items| - 1])
  }

  /** The collections loop over `items`, in order. */
  function FoldCollections(p: Progress, items: seq<JValue>): (q: Progress)
    ensures p.store.Valid() ==> q.store.Valid()
    ensures q.tally.receipts == p.tally.receipts
    ensures q.tally.conflicts >= p.tally.conflicts
    ensures q.tally.Total() <= p.tally.Total() + |items|
    ensures p.aborted ==> q == p
    decreases |items|
  {
    if items == [] then p
    else CollectionStep(FoldCollections(p, items[..|items| - 1]), items[|items| - 1])
  }

  /** The receipts array of a payload, if it has the key ("receipts" that is not an array throws). */
  function ReceiptsPhase(p: Progress, payload: JFields): Progress {
    if "receipts" !in payload then p
    else if payload["receipts"].JArray? then FoldReceipts(p, payload["receipts"].items)
    else p.(aborted := true)
  }

  function CollectionsPhase(p: Progress, payload: JFields): Progress {
    if p.aborted || "collections" !in payload then p
    else if payload["collections"].JArray? then FoldCollections(p, payload["collections"].items)
    else p.(aborted := true)
  }

  /**
   * processSyncResponse: all receipts first, then all collections; an exception
   * ends the batch, keeping what was merged and counted before it.
   */
  function ProcessPayload(s: Store, payload: JFields): (Store, Tally) {
    var p := CollectionsPhase(ReceiptsPhase(Progress(s, NoTally, false), payload), payload);
    (p.store, p.tally)
  }

  /** Merging a payload keeps every row under its own id. */
  lemma ProcessPayloadKeepsValid(s: Store, payload: JFields)
    ensures s.Valid() ==> ProcessPayload(s, payload).0.Valid()
  {
    var p1 := ReceiptsPhase(Progress(s, NoTally, false), payload);
    assert s.Valid() ==> p1.store.Valid();
  }

  /** Number of elements of the array under `key`, zero if there is none. */
  function ArrayLength(payload: JFields, key: string): nat {
    if key in payload && payload[key].JArray? then |payload[key].items| else 0
  }

  // ---------------------------------------------------------------------------
  // Properties of the receipt rule
  // ---------------------------------------------------------------------------

  /**
   * The receipt rule at the level of the table: SYNCED exactly when there is no
   * local copy, the version is higher, or the timestamp is later; the incoming
   * record (then flagged SYNCED) or the local one (flagged CONFLICT) is kept, and
   * no other id changes.
   */
  lemma MergeReceiptRule(t: Table<Receipt>, r: Receipt)
    ensures var (t', outcome) := MergeReceipt(t, r);
      && outcome != Error
      && (outcome == Synced <==>
            (r.id !in t.rows || r.version > t.rows[r.id].version || r.lastModified > t.rows[r.id].lastModified))
      && (outcome == Synced ==> t'.Get(r.id) == Some(r.(syncStatus := SYNCED)))
      && (outcome == Conflict ==> r.id in t.rows && t'.Get(r.id) == Some(t.rows[r.id].(syncStatus := CONFLICT)))
      && (forall k :: k != r.id ==> t'.Get(k) == t.Get(k))
  {
  }

  /** A receipt that fails to parse is an error and leaves the store as it was. */
  lemma ApplyReceiptError(s: Store, o: JFields)
    requires ParseReceipt(o).None?
    ensures ApplyReceipt(s, o) == (s, Error)
  {
  }

  /** Merging keeps every row under its own id. */
  lemma MergeReceiptKeepsValid(s: Store, o: JFields)
    ensures s.Valid() ==> ApplyReceipt(s, o).0.Valid()
    ensures ApplyReceipt(s, o).0.collections == s.collections
  {
  }

  lemma MergeCollectionKeepsValid(s: Store, o: JFields)
    ensures s.Valid() ==> ApplyCollection(s, o).0.Valid()
  {
  }

  /**
   * Re-merging a record is never SYNCED: after any first merge, merging the same
   * record again reports CONFLICT and leaves every field but syncStatus as the
   * first merge left it. The merge is therefore not idempotent.
   */
  lemma RemergeReceiptConflicts(t: Table<Receipt>, r: Receipt)
    ensures var (t1, _) := MergeReceipt(t, r);
      var (t2, o2) := MergeReceipt(t1, r);
      && o2 == Conflict
      && r.id in t1.rows
      && t2.Get(r.id) == Some(t1.rows[r.id].(syncStatus := CONFLICT))
  {
    var (t1, o1) := MergeReceipt(t, r);
    MergeReceiptRule(t, r);
    MergeReceiptRule(t1, r);
  }

  /** A same-version, same-timestamp receipt from a peer is reported as a CONFLICT. */
  lemma IdenticalReceiptConflicts(t: Table<Receipt>, r: Receipt)
    requires r.id in t.rows
    requires t.rows[r.id].version == r.version && t.rows[r.id].lastModified == r.lastModified
    ensures MergeReceipt(t, r).1 == Conflict
  {
  }

  /**
   * The timestamp branch does not compare versions: a receipt with a LOWER
   * version but a later timestamp replaces the local copy, so the stored version
   * goes down.
   */
  lemma LowerVersionLaterTimestampWins(t: Table<Receipt>, r: Receipt)
    requires r.id in t.rows
    requires r.version < t.rows[r.id].version
    requires r.lastModified > t.rows[r.id].lastModified
    ensures MergeReceipt(t, r).1 == Synced
    ensures MergeReceipt(t, r).0.rows[r.id].version < t.rows[r.id].version
  {
    MergeReceiptRule(t, r);
  }

  // ---------------------------------------------------------------------------
  // Properties of the collection rule
  // ---------------------------------------------------------------------------

  /**
   * The collection rule: a new collection is inserted SYNCED and its receipt (if
   * present) is marked collected; an existing one is replaced only by a strictly
   * later timestamp, and is otherwise kept and flagged CONFLICT. Only the
   * collection with the incoming id, and for a new one its receipt, change.
   */
  lemma MergeCollectionRule(s: Store, c: Collection)
    ensures var (s', outcome) := MergeCollection(s, c);
      && outcome != Error
      && (outcome == Synced <==>
            (c.id !in s.collections.rows || c.lastModified > s.collections.rows[c.id].lastModified))
      && (outcome == Synced ==> s'.collections.Get(c.id) == Some(c.(syncStatus := SYNCED)))
      && (outcome == Conflict ==>
            c.id in s.collections.rows
            && s'.collections.Get(c.id) == Some(s.collections.rows[c.id].(syncStatus := CONFLICT)))
      && (forall k :: k != c.id ==> s'.collections.Get(k) == s.collections.Get(k))
      && (c.id !in s.collections.rows && c.receiptId in s.receipts.rows ==>
            s'.receipts.Get(c.receiptId) == Some(s.receipts.rows[c.receiptId].(isCollected := true)))
      && (forall k :: k != c.receiptId || c.id in s.collections.rows ==> s'.receipts.Get(k) == s.receipts.Get(k))
  {
  }

  /** A new collection whose receipt is missing is still inserted, and no receipt changes. */
  lemma DanglingCollectionTolerated(s: Store, c: Collection)
    requires c.id !in s.collections.rows && c.receiptId !in s.receipts.rows
    ensures MergeCollection(s, c).1 == Synced
    ensures MergeCollection(s, c).0.receipts == s.receipts
  {
  }

  // ---------------------------------------------------------------------------
  // Properties of payload processing
  // ---------------------------------------------------------------------------

  /** The receipts loop stops changing anything after an exception. */
  lemma {:induction false} FoldReceiptsAbortedStable(p: Progress, items: seq<JValue>, i: nat)
    requires i <= |items|
    requires FoldReceipts(p, items[..i]).aborted
    ensures FoldReceipts(p, items) == FoldReceipts(p, items[..i])
    decreases |items| - i
  {
    if i < |items| {
      assert items[..i + 1][..i] == items[..i];
      FoldReceiptsAbortedStable(p, items, i + 1);
    } else {
      assert items[..i] == items;
    }
  }

  lemma {:induction false} FoldCollectionsAbortedStable(p: Progress, items: seq<JValue>, i: nat)
    requires i <= |items|
    requires FoldCollections(p, items[..i]).aborted
    ensures FoldCollections(p, items) == FoldCollections(p, items[..i])
    decreases |items| - i
  {
    if i < |items| {
      assert items[..i + 1][..i] == items[..i];
      FoldCollectionsAbortedStable(p, items, i + 1);
    } else {
      assert items[..i] == items;
    }
  }

  /** The receipts loop one element further. */
  lemma FoldReceiptsNext(p: Progress, items: seq<JValue>, i: nat)
    requires i < |items|
    ensures FoldReceipts(p, items[..i + 1]) == ReceiptStep(FoldReceipts(p, items[..i]), items[i])
  {
    assert items[..i + 1][..i] == items[..i];
  }

  lemma FoldCollectionsNext(p: Progress, items: seq<JValue>, i: nat)
    requires i < |items|
    ensures FoldCollections(p, items[..i + 1]) == CollectionStep(FoldCollections(p, items[..i]), items[i])
  {
    assert items[..i + 1][..i] == items[..i];
  }

  /**
   * The counters of processSyncResponse: they count at most one outcome per
   * array element, receipt SYNCEDs only in the receipt count, collection SYNCEDs
   * only in the collection count.
   */
  lemma TallyBound(s: Store, payload: JFields)
    ensures ProcessPayload(s, payload).1.Total() <= ArrayLength(payload, "receipts") + ArrayLength(payload, "collections")
    ensures ProcessPayload(s, payload).1.receipts <= ArrayLength(payload, "receipts")
    ensures ProcessPayload(s, payload).1.collections <= ArrayLength(payload, "collections")
  {
    var p1 := ReceiptsPhase(Progress(s, NoTally, false), payload);
    ReceiptsPhaseTally(s, payload);
    CollectionsPhaseTally(p1, payload);
  }

  /** The receipts phase counts no collection and at most one outcome per receipt element. */
  lemma ReceiptsPhaseTally(s: Store, payload: JFields)
    ensures ReceiptsPhase(Progress(s, NoTally, false), payload).tally.collections == 0
    ensures ReceiptsPhase(Progress(s, NoTally, false), payload).tally.Total() <= ArrayLength(payload, "receipts")
  {
    var p0 := Progress(s, NoTally, false);
    if "receipts" in payload && payload["receipts"].JArray? {
      assert ReceiptsPhase(p0, payload) == FoldReceipts(p0, payload["receipts"].items);
    }
  }

  /** The collections phase leaves the receipt count alone and counts at most one outcome per element. */
  lemma CollectionsPhaseTally(p: Progress, payload: JFields)
    ensures CollectionsPhase(p, payload).tally.receipts == p.tally.receipts
    ensures CollectionsPhase(p, payload).tally.conflicts >= p.tally.conflicts
    ensures CollectionsPhase(p, payload).tally.Total() <= p.tally.Total() + ArrayLength(payload, "collections")
  {
    if !p.aborted && "collections" in payload && payload["collections"].JArray? {
      assert CollectionsPhase(p, payload) == FoldCollections(p, payload["collections"].items);
    }
  }

  /** The receipt payload rows a fold writes: ids of the well-formed receipts among `items`. */
  ghost predicate MentionsReceipt(items: seq<JValue>, id: string) {
    exists i :: 0 <= i < |items| && items[i].JObject? && ParseReceipt(items[i].fields).Some?
      && ParseReceipt(items[i].fields).value.id == id
  }

  /** A receipt mentioned by a prefix, or by the last element, is mentioned by the whole batch. */
  lemma MentionsSplit(items: seq<JValue>, id: string)
    requires items != []
    ensures MentionsReceipt(items[..|items| - 1], id) ==> MentionsReceipt(items, id)
    ensures var last := items[|items| - 1];
      last.JObject? && ParseReceipt(last.fields).Some? && ParseReceipt(last.fields).value.id == id
      ==> MentionsReceipt(items, id)
  {
    var init := items[..|items| - 1];
    if MentionsReceipt(init, id) {
      var i :| 0 <= i < |init| && init[i].JObject? && ParseReceipt(init[i].fields).Some?
        && ParseReceipt(init[i].fields).value.id == id;
      assert items[i] == init[i];
    }
  }

  /** The receipts loop writes only the ids of the receipts it is given. */
  lemma {:induction false} FoldReceiptsFrame(p: Progress, items: seq<JValue>, id: string)
    requires !MentionsReceipt(items, id)
    ensures FoldReceipts(p, items).store.receipts.Get(id) == p.store.receipts.Get(id)
    decreases |items|
  {
    if items != [] {
      var init := items[..|items| - 1];
      MentionsSplit(items, id);
      FoldReceiptsFrame(p, init, id);
      var last := items[|items| - 1];
      var q0 := FoldReceipts(p, init);
      if !q0.aborted && last.JObject? {
        match ParseReceipt(last.fields)
        case None =>
        case Some(r) => MergeReceiptRule(q0.store.receipts, r);
      }
    }
  }

  /** Every element of `items` is an object that the receiver reads as the matching receipt. */
  ghost predicate ReceiptsParseTo(items: seq<JValue>, rs: seq<Receipt>) {
    |items| == |rs|
    && forall i :: 0 <= i < |rs| ==> items[i].JObject? && ParseReceipt(items[i].fields) == Some(rs[i])
  }

  /** The receipts array a device sends parses back to its table's rows. */
  lemma ReceiptsJsonParses(t: Table<Receipt>)
    requires t.Valid()
    ensures ReceiptsParseTo(ReceiptsJson(t), t.All())
  {
    var a, rs := ReceiptsJson(t), t.All();
    forall i | 0 <= i < |rs|
      ensures a[i].JObject? && ParseReceipt(a[i].fields) == Some(rs[i])
    {
      ReceiptRoundTrip(rs[i]);
    }
  }

  /** Every element of `items` is an object that the receiver reads as the matching collection. */
  ghost predicate CollectionsParseTo(items: seq<JValue>, cs: seq<Collection>) {
    |items| == |cs|
    && forall i :: 0 <= i < |cs| ==> items[i].JObject? && ParseCollection(items[i].fields) == Some(cs[i])
  }

  lemma CollectionsJsonParses(t: Table<Collection>)
    requires t.Valid()
    ensures CollectionsParseTo(CollectionsJson(t), t.All())
  {
    var a, cs := CollectionsJson(t), t.All();
    forall i | 0 <= i < |cs|
      ensures a[i].JObject? && ParseCollection(a[i].fields) == Some(cs[i])
    {
      CollectionRoundTrip(cs[i]);
    }
  }

  /** One fresh well-formed receipt is inserted SYNCED and counted as such. */
  lemma FreshReceiptStep(q: Progress, item: JValue, r: Receipt)
    requires !q.aborted
    requires item.JObject? && ParseReceipt(item.fields) == Some(r)
    requires r.id !in q.store.receipts.rows
    ensures var q' := ReceiptStep(q, item);
      && !q'.aborted
      && q'.tally == q.tally.(receipts := q.tally.receipts + 1)
      && q'.store.receipts == q.store.receipts.Put(r.id, r.(syncStatus := SYNCED))
  {
  }

  /** Inserting a further id keeps the rows of the receipts inserted before it. */
  lemma PutKeepsInserted(t: Table<Receipt>, r: Receipt, done: seq<Receipt>)
    requires forall i :: 0 <= i < |done| ==> done[i].id != r.id
    requires forall i :: 0 <= i < |done| ==> t.Get(done[i].id) == Some(done[i].(syncStatus := SYNCED))
    ensures var t' := t.Put(r.id, r.(syncStatus := SYNCED));
      var all := done + [r];
      forall i :: 0 <= i < |all| ==> t'.Get(all[i].id) == Some(all[i].(syncStatus := SYNCED))
  {
    var all := done + [r];
    assert forall i :: 0 <= i < |done| ==> all[i] == done[i];
  }

  /** After the fold over a batch: not aborted, one SYNCED per receipt counted, each stored SYNCED. */
  ghost predicate AllSynced(q: Progress, p: Progress, rs: seq<Receipt>) {
    && !q.aborted
    && q.tally == p.tally.(receipts := p.tally.receipts + |rs|)
    && forall i :: 0 <= i < |rs| ==> q.store.receipts.Get(rs[i].id) == Some(rs[i].(syncStatus := SYNCED))
  }

  /** A fresh receipt after a batch of inserted ones: the batch stays and the receipt joins it. */
  lemma FreshReceiptAppended(p: Progress, q: Progress, item: JValue, r: Receipt, done: seq<Receipt>)
    requires AllSynced(q, p, done)
    requires item.JObject? && ParseReceipt(item.fields) == Some(r)
    requires q.store.receipts.Get(r.id) == None
    requires forall i :: 0 <= i < |done| ==> done[i].id != r.id
    ensures AllSynced(ReceiptStep(q, item), p, done + [r])
  {
    FreshReceiptStep(q, item, r);
    PutKeepsInserted(q.store.receipts, r, done);
  }

  /**
   * `items` parse to `rs`, whose ids are distinct and none of them among `rows`:
   * stated element by element from the back, the order in which the fold takes them.
   */
  ghost predicate FreshParsed(items: seq<JValue>, rs: seq<Receipt>, rows: map<string, Receipt>)
    decreases |rs|
  {
    && |items| == |rs|
    && (rs == [] ||
        var n := |rs| - 1;
        && FreshParsed(items[..n], rs[..n], rows)
        && items[n].JObject? && ParseReceipt(items[n].fields) == Some(rs[n])
        && rs[n].id !in rows
        && forall i :: 0 <= i < n ==> rs[i].id != rs[n].id)
  }

  /** A well-formed batch with pairwise distinct, new ids satisfies FreshParsed. */
  lemma {:induction false} ToFreshParsed(items: seq<JValue>, rs: seq<Receipt>, rows: map<string, Receipt>)
    requires ReceiptsParseTo(items, rs)
    requires forall i, j :: 0 <= i < j < |rs| ==> rs[i].id != rs[j].id
    requires forall i :: 0 <= i < |rs| ==> rs[i].id !in rows
    ensures FreshParsed(items, rs, rows)
    decreases |rs|
  {
    if rs != [] {
      var n := |rs| - 1;
      assert ReceiptsParseTo(items[..n], rs[..n]);
      ToFreshParsed(items[..n], rs[..n], rows);
    }
  }

  /** FreshParsed includes the element-wise parse. */
  lemma {:induction false} FreshParsedParses(items: seq<JValue>, rs: seq<Receipt>, rows: map<string, Receipt>)
    requires FreshParsed(items, rs, rows)
    ensures ReceiptsParseTo(items, rs)
    decreases |rs|
  {
    if rs != [] {
      var n := |rs| - 1;
      FreshParsedParses(items[..n], rs[..n], rows);
      forall i | 0 <= i < |rs|
        ensures items[i].JObject? && ParseReceipt(items[i].fields) == Some(rs[i])
      {
        if i < n {
          assert items[..n][i] == items[i] && rs[..n][i] == rs[i];
        }
      }
    }
  }

  /** A batch of well-formed receipts leaves an id none of them carries as it was. */
  lemma FoldSkipsOtherIds(p: Progress, items: seq<JValue>, rs: seq<Receipt>, rows: map<string, Receipt>, id: string)
    requires FreshParsed(items, rs, rows)
    requires forall i :: 0 <= i < |rs| ==> rs[i].id != id
    ensures FoldReceipts(p, items).store.receipts.Get(id) == p.store.receipts.Get(id)
  {
    FreshParsedParses(items, rs, rows);
    NotMentionedWhenDistinct(items, rs, id);
    FoldReceiptsFrame(p, items, id);
  }

  /**
   * A batch of receipts with distinct ids, none known locally, is inserted in full:
   * every one is counted SYNCED and none is a conflict.
   */
  lemma FreshReceiptsAllSynced(p: Progress, items: seq<JValue>, rs: seq<Receipt>)
    requires !p.aborted
    requires ReceiptsParseTo(items, rs)
    requires forall i, j :: 0 <= i < j < |rs| ==> rs[i].id != rs[j].id
    requires forall i :: 0 <= i < |rs| ==> rs[i].id !in p.store.receipts.rows
    ensures var q := FoldReceipts(p, items);
      && !q.aborted
      && q.tally == p.tally.(receipts := p.tally.receipts + |rs|)
      && forall i :: 0 <= i < |rs| ==> q.store.receipts.Get(rs[i].id) == Some(rs[i].(syncStatus := SYNCED))
  {
    ToFreshParsed(items, rs, p.store.receipts.rows);
    FreshBatchAllSynced(p, items, rs);
  }

  /** The induction behind FreshReceiptsAllSynced, one element at a time from the back. */
  lemma {:induction false} FreshBatchAllSynced(p: Progress, items: seq<JValue>, rs: seq<Receipt>)
    requires !p.aborted
    requires FreshParsed(items, rs, p.store.receipts.rows)
    ensures AllSynced(FoldReceipts(p, items), p, rs)
    decreases |items|
  {
    if items != [] {
      var n := |rs| - 1;
      FreshBatchAllSynced(p, items[..n], rs[..n]);
      FoldSkipsLast(p, items, rs, p.store.receipts.rows);
      FreshLastStep(p, FoldReceipts(p, items[..n]), items, rs);
      FoldReceiptsLast(p, items);
    }
  }

  /** The fold over a non-empty batch is the step over its last element after the fold over the rest. */
  lemma FoldReceiptsLast(p: Progress, items: seq<JValue>)
    requires items != []
    ensures FoldReceipts(p, items) == ReceiptStep(FoldReceipts(p, items[..|items| - 1]), items[|items| - 1])
  {
  }

  /** The receipts before the last leave the last one's id as it was. */
  lemma FoldSkipsLast(p: Progress, items: seq<JValue>, rs: seq<Receipt>, rows: map<string, Receipt>)
    requires rs != [] && FreshParsed(items, rs, rows)
    ensures FoldReceipts(p, items[..|rs| - 1]).store.receipts.Get(rs[|rs| - 1].id) == p.store.receipts.Get(rs[|rs| - 1].id)
  {
    var n := |rs| - 1;
    assert forall i :: 0 <= i < n ==> rs[..n][i].id != rs[n].id;
    FoldSkipsOtherIds(p, items[..n], rs[..n], rows, rs[n].id);
  }

  /** The last element of a fresh batch, once the ones before it are inserted. */
  lemma FreshLastStep(p: Progress, q: Progress, items: seq<JValue>, rs: seq<Receipt>)
    requires |items| == |rs| > 0
    requires items[|rs| - 1].JObject? && ParseReceipt(items[|rs| - 1].fields) == Some(rs[|rs| - 1])
    requires rs[|rs| - 1].id !in p.store.receipts.rows
    requires forall i :: 0 <= i < |rs| - 1 ==> rs[i].id != rs[|rs| - 1].id
    requires AllSynced(q, p, rs[..|rs| - 1])
    requires q.store.receipts.Get(rs[|rs| - 1].id) == p.store.receipts.Get(rs[|rs| - 1].id)
    ensures AllSynced(ReceiptStep(q, items[|items| - 1]), p, rs)
  {
    var n := |rs| - 1;
    assert q.store.receipts.Get(rs[n].id) == None;
    assert forall i :: 0 <= i < n ==> rs[..n][i].id != rs[n].id;
    FreshReceiptAppended(p, q, items[n], rs[n], rs[..n]);
    AllSyncedRejoin(ReceiptStep(q, items[n]), p, rs);
  }

  /** AllSynced over a batch split into its front and its last element is AllSynced over the batch. */
  lemma AllSyncedRejoin(q: Progress, p: Progress, rs: seq<Receipt>)
    requires rs != [] && AllSynced(q, p, rs[..|rs| - 1] + [rs[|rs| - 1]])
    ensures AllSynced(q, p, rs)
  {
    assert rs[..|rs| - 1] + [rs[|rs| - 1]] == rs;
  }

  /** An id that none of the parsed receipts carries is not mentioned by their rows. */
  lemma NotMentionedWhenDistinct(items: seq<JValue>, rs: seq<Receipt>, id: string)
    requires ReceiptsParseTo(items, rs)
    requires forall i :: 0 <= i < |rs| ==> rs[i].id != id
    ensures !MentionsReceipt(items, id)
  {
  }
}
