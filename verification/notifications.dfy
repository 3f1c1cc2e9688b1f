/**
 * noona/restAPI/v2/mongodb/notifications: the list of Kavita item ids that
 * have already been announced, kept in the single document
 * `{ type: 'kavitaNotifiedIds', ids }` of the `kavitaNotifications` collection.
 *
 * Each operation exists as a flat file (create.mjs, read.mjs, update.mjs,
 * delete.mjs) and as a nested copy (create/createIds.mjs, ...). The update and
 * delete copies behave alike and are modelled once; the create and read copies
 * differ and are modelled apart.
 */
module Notifications {
  import opened Wrappers
  import opened JsArray

  /** A JSON value in the `ids` position: an array of ids, or anything else, with its truthiness. */
  datatype IdsValue = Arr(items: seq<string>) | Other(truthy: bool)

  /**
   * The collection, reduced to the one document the handlers touch: `record`
   * is that document's `ids` field, `None` while there is no document. A
   * missing database (`getMongoDb()` returning null) is a null collection.
   */
  class NotificationStore {
    var record: Option<IdsValue>

    constructor (record: Option<IdsValue>)
      ensures this.record == record
    {
      this.record := record;
    }
  }

  /** JSON bodies of the replies. */
  datatype Body =
    | Failure(msg: string, error: Option<string>)  // { success: false, message, error? }
    | Done(msg: string)                            // { success: true, message }
    | DoneOk(msg: string)                          // { success: true, status: 'ok', message }
    | IdsBody(ids: IdsValue)                       // { success: true, ids }
    | NotifiedIdsBody(notifiedIds: seq<string>)    // { success: true, status: 'ok', notifiedIds }

  datatype Reply = Reply(status: int, body: Body)

  /** `Array.isArray(existing?.ids) ? existing.ids : []`: the stored ids, if they form an array. */
  function StoredIds(record: Option<IdsValue>): (ids: seq<string>)
    ensures ids != [] ==> record == Some(Arr(ids))
  {
    if record.Some? && record.value.Arr? then record.value.items else []
  }

  /** `record?.ids || []`: no document or a falsy `ids` reads as `[]`; anything truthy passes through. */
  function IdsOrEmpty(record: Option<IdsValue>): (v: IdsValue)
    ensures v.Other? ==> v.truthy && record == Some(v)
    ensures v.Arr? ==> v.items == StoredIds(record)
  {
    match record
    case None => Arr([])
    case Some(Arr(items)) => Arr(items)
    case Some(Other(truthy)) => if truthy then Other(true) else Arr([])
  }

  /** `Array.from(new Set([...current, ...ids]))` */
  function Merge(current: seq<string>, ids: seq<string>): (merged: seq<string>)
    ensures forall x :: x in merged <==> x in current || x in ids
    ensures NoDuplicates(merged)
  {
    Dedup(current + ids)
  }

  /**
   * POST /v2/mongodb/notifications/create (create.mjs): the database is
   * checked first, then the body; an array replaces the stored ids wholesale,
   * duplicates and all, creating the document if there is none. `fault` is
   * the error a rejecting `updateOne` carries.
   */
  method PostCreate(db: NotificationStore?, ids: IdsValue, fault: Option<string>) returns (r: Reply)
    modifies db
    ensures db == null ==> r == Reply(503, Failure("MongoDB not available", None))
    ensures db != null && !ids.Arr? ==> r == Reply(400, Failure("ids must be an array", None)) && db.record == old(db.record)
    ensures db != null && ids.Arr? && fault.Some? ==> r == Reply(500, Failure("Failed to store IDs", fault)) && db.record == old(db.record)
    ensures db != null && ids.Arr? && fault.None? ==> r == Reply(200, Done("IDs stored successfully")) && db.record == Some(ids)
  {
    if db == null {
      return Reply(503, Failure("MongoDB not available", None));
    }
    if !ids.Arr? {
      return Reply(400, Failure("ids must be an array", None));
    }
    if fault.Some? {
      return Reply(500, Failure("Failed to store IDs", fault));
    }
    db.record := Some(ids);
    r := Reply(200, Done("IDs stored successfully"));
  }

  /**
   * The nested create copy (create/createIds.mjs): the same replacement, but
   * the body is checked before the database, so a bad body is a 400 even with
   * no database; its 500 carries no error detail.
   */
  method PostCreateIds(db: NotificationStore?, ids: IdsValue, fault: Option<string>) returns (r: Reply)
    modifies db
    ensures !ids.Arr? ==> r == Reply(400, Failure("Invalid format: ids must be an array", None))
    ensures ids.Arr? && db == null ==> r == Reply(503, Failure("Database connection unavailable", None))
    ensures db != null && !ids.Arr? ==> db.record == old(db.record)
    ensures db != null && ids.Arr? && fault.Some? ==> r == Reply(500, Failure("Failed to save notified IDs", None)) && db.record == old(db.record)
    ensures db != null && ids.Arr? && fault.None? ==> r == Reply(200, DoneOk("Notified IDs saved successfully")) && db.record == Some(ids)
  {
    if !ids.Arr? {
      return Reply(400, Failure("Invalid format: ids must be an array", None));
    }
    if db == null {
      return Reply(503, Failure("Database connection unavailable", None));
    }
    if fault.Some? {
      return Reply(500, Failure("Failed to save notified IDs", None));
    }
    db.record := Some(ids);
    r := Reply(200, DoneOk("Notified IDs saved successfully"));
  }

  /** GET /v2/mongodb/notifications/read (read.mjs); `fault` is a rejecting `findOne`. */
  function GetRead(db: NotificationStore?, fault: Option<string>): (r: Reply)
    reads db
    ensures r.status == 503 <==> db == null
    ensures r.status == 500 <==> db != null && fault.Some?
    ensures r.status == 200 <==> db != null && fault.None?
    ensures r.status == 200 ==> r.body.IdsBody? && (r.body.ids.Other? ==> db.record == Some(r.body.ids))
  {
    if db == null then Reply(503, Failure("MongoDB not available", None))
    else if fault.Some? then Reply(500, Failure("Failed to fetch IDs", fault))
    else Reply(200, IdsBody(IdsOrEmpty(db.record)))
  }

  /** The nested read copy (read/readIds.mjs): only an array is returned, under `notifiedIds`. */
  function GetReadIds(db: NotificationStore?, fault: Option<string>): (r: Reply)
    reads db
    ensures r.status == 503 <==> db == null
    ensures r.status == 500 <==> db != null && fault.Some?
    ensures r.status == 200 <==> db != null && fault.None?
    ensures r.status == 200 ==> r.body.NotifiedIdsBody? && (r.body.notifiedIds != [] ==> db.record == Some(Arr(r.body.notifiedIds)))
  {
    if db == null then Reply(503, Failure("Database connection unavailable", None))
    else if fault.Some? then Reply(500, Failure("Failed to retrieve notified IDs", None))
    else Reply(200, NotifiedIdsBody(StoredIds(db.record)))
  }

  /**
   * PUT /v2/mongodb/notifications/update (update.mjs, and the identical
   * update/updateIds.mjs): merges the given ids into the stored ones without
   * repeats and upserts the result. `fault` is a rejecting `findOne` or
   * `updateOne`; either way nothing is written.
   */
  method PutUpdate(db: NotificationStore?, ids: IdsValue, fault: Option<string>) returns (r: Reply)
    modifies db
    ensures db == null ==> r == Reply(503, Failure("MongoDB not available", None))
    ensures db != null && !ids.Arr? ==> r == Reply(400, Failure("ids must be an array", None)) && db.record == old(db.record)
    ensures db != null && ids.Arr? && fault.Some? ==> r == Reply(500, Failure("Failed to update IDs", fault)) && db.record == old(db.record)
    ensures db != null && ids.Arr? && fault.None? ==>
              (r == Reply(200, Done("IDs merged successfully"))
               && db.record == Some(Arr(Merge(StoredIds(old(db.record)), ids.items))))
  {
    if db == null {
      return Reply(503, Failure("MongoDB not available", None));
    }
    if !ids.Arr? {
      return Reply(400, Failure("ids must be an array", None));
    }
    var current := StoredIds(db.record);
    if fault.Some? {
      return Reply(500, Failure("Failed to update IDs", fault));
    }
    var merged := Merge(current, ids.items);
    db.record := Some(Arr(merged));
    r := Reply(200, Done("IDs merged successfully"));
  }

  /**
   * DELETE /v2/mongodb/notifications/delete (delete.mjs, and the identical
   * delete/deleteIds.mjs): removes the document; with no document to remove
   * the reply is 404.
   */
  method DeleteRecord(db: NotificationStore?, fault: Option<string>) returns (r: Reply)
    modifies db
    ensures db == null ==> r == Reply(503, Failure("MongoDB not available", None))
    ensures db != null && fault.Some? ==> r == Reply(500, Failure("Failed to delete IDs", fault)) && db.record == old(db.record)
    ensures db != null && fault.None? && old(db.record).None? ==> r == Reply(404, Failure("No record found to delete", None)) && db.record == None
    ensures db != null && fault.None? && old(db.record).Some? ==> r == Reply(200, Done("IDs deleted successfully")) && db.record == None
  {
    if db == null {
      return Reply(503, Failure("MongoDB not available", None));
    }
    if fault.Some? {
      return Reply(500, Failure("Failed to delete IDs", fault));
    }
    var deletedCount := if db.record.Some? then 1 else 0;
    db.record := None;
    if deletedCount == 0 {
      return Reply(404, Failure("No record found to delete", None));
    }
    r := Reply(200, Done("IDs deleted successfully"));
  }

  /** The merge keeps the stored ids first, in their order. */
  lemma MergeKeepsCurrent(current: seq<string>, ids: seq<string>)
    requires NoDuplicates(current)
    ensures |current| <= |Merge(current, ids)| && Merge(current, ids)[..|current|] == current
  {
    DedupPrefix(current, ids);
    DedupDistinct(current);
  }

  /** After the stored ids come only ids that were not stored yet. */
  lemma MergeAppendsNew(current: seq<string>, ids: seq<string>)
    requires NoDuplicates(current)
    ensures |current| <= |Merge(current, ids)|
    ensures forall x :: x in Merge(current, ids)[|current|..] ==> x in ids && x !in current
  {
    var merged := Merge(current, ids);
    MergeKeepsCurrent(current, ids);
    forall x | x in merged[|current|..]
      ensures x in ids && x !in current
    {
      var k :| |current| <= k < |merged| && merged[k] == x;
      forall p | 0 <= p < |current|
        ensures current[p] != x
      {
        assert merged[p] == current[p];
      }
    }
  }

  /** The merged ids appear in the order of their first occurrence in `[...current, ...ids]`. */
  lemma MergeFirstOccurrence(current: seq<string>, ids: seq<string>)
    ensures forall i, j :: 0 <= i < j < |Merge(current, ids)| ==>
              IndexOf(current + ids, Merge(current, ids)[i]) < IndexOf(current + ids, Merge(current, ids)[j])
  {
    DedupOrder(current + ids);
  }

  /** Merging the same ids a second time stores the same list as merging once. */
  lemma MergeIdempotent(current: seq<string>, ids: seq<string>)
    ensures Merge(Merge(current, ids), ids) == Merge(current, ids)
  {
    var merged := Merge(current, ids);
    DedupAbsorb(merged, ids);
    DedupDistinct(merged);
  }

  /** Two identical updates leave the document as one does. */
  lemma UpdateTwice(record: Option<IdsValue>, ids: seq<string>)
    ensures var once := Some(Arr(Merge(StoredIds(record), ids)));
      Some(Arr(Merge(StoredIds(once), ids))) == once
  {
    MergeIdempotent(StoredIds(record), ids);
  }

  /**
   * The two read copies agree on every stored document except one whose `ids`
   * is a truthy non-array, which read.mjs passes through and readIds.mjs
   * replaces by `[]`.
   */
  lemma ReadCopiesAgree(db: NotificationStore)
    ensures GetRead(db, None).body == IdsBody(Arr(GetReadIds(db, None).body.notifiedIds))
            <==> db.record != Some(Other(true))
  {
  }

  /** Once the document is deleted, both read copies answer with an empty list. */
  lemma ReadAfterDelete(db: NotificationStore)
    requires db.record == None
    ensures GetRead(db, None) == Reply(200, IdsBody(Arr([])))
    ensures GetReadIds(db, None) == Reply(200, NotifiedIdsBody([]))
  {
  }

  /** After a create with `items`, both read copies return exactly `items`, repeats included. */
  lemma ReadAfterCreate(db: NotificationStore, items: seq<string>)
    requires db.record == Some(Arr(items))
    ensures GetRead(db, None) == Reply(200, IdsBody(Arr(items)))
    ensures GetReadIds(db, None) == Reply(200, NotifiedIdsBody(items))
  {
  }
}
