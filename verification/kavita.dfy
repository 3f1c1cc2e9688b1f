/**
 * noona/restAPI/v1/notifications/kavita.mjs: `mountKavitaNotificationRoutes`,
 * three routes over a collection holding one `{ itemId }` document per
 * notified Kavita item.
 */
module Kavita {
  import opened Wrappers
  import opened JsString
  import opened JsArray

  /** The collection's documents, seen as their `itemId`s in storage order. */
  class ItemCollection {
    var items: seq<string>

    constructor (items: seq<string>)
      ensures this.items == items
    {
      this.items := items;
    }
  }

  /** JSON bodies: the bare id list, `{ message }` or `{ error }`. */
  datatype Body = IdList(ids: seq<string>) | Message(msg: string) | Error(error: string)

  datatype Reply = Reply(status: int, body: Body)

  /** `updateOne({ itemId }, { $set: { itemId } }, { upsert: true })`: added once, never twice. */
  function Upsert(items: seq<string>, itemId: string): (r: seq<string>)
    ensures itemId in r
    ensures forall x :: x in items ==> x in r
    ensures forall x :: x in r ==> x in items || x == itemId
    ensures itemId in items ==> r == items
  {
    if itemId in items then items else items + [itemId]
  }

  /** `deleteOne({ itemId })`: the first matching document goes, the rest keep their order. */
  function RemoveFirst(items: seq<string>, itemId: string): (r: seq<string>)
    requires itemId in items
    ensures |r| == |items| - 1
    ensures multiset(r) == multiset(items) - multiset{itemId}
  {
    var k := IndexOf(items, itemId);
    assert items == items[..k] + [itemId] + items[k + 1..];
    items[..k] + items[k + 1..]
  }

  /** GET /v1/notifications/kavita/ids: every stored `itemId`; `fails` is a rejecting `find`. */
  function GetIds(c: ItemCollection, fails: bool): (r: Reply)
    reads c
    ensures r.status == 200 <==> !fails
    ensures r.status == 200 ==> r.body.IdList? && (forall x :: x in r.body.ids <==> x in c.items)
    ensures r.status != 200 ==> r == Reply(500, Error("Failed to fetch notified item IDs."))
  {
    if fails then Reply(500, Error("Failed to fetch notified item IDs."))
    else Reply(200, IdList(c.items))
  }

  /** POST /v1/notifications/kavita/ids with body `{ itemId }`; a falsy id is refused before the store is touched. */
  method PostId(c: ItemCollection, itemId: Option<string>, fails: bool) returns (r: Reply)
    modifies c
    ensures !Truthy(itemId) ==> r == Reply(400, Error("Missing itemId in request body")) && c.items == old(c.items)
    ensures Truthy(itemId) && fails ==> r == Reply(500, Error("Failed to save item ID.")) && c.items == old(c.items)
    ensures Truthy(itemId) && !fails ==> r == Reply(200, Message("Item saved or updated")) && c.items == Upsert(old(c.items), itemId.value)
  {
    if !Truthy(itemId) {
      return Reply(400, Error("Missing itemId in request body"));
    }
    if fails {
      return Reply(500, Error("Failed to save item ID."));
    }
    if itemId.value !in c.items {
      c.items := c.items + [itemId.value];
    }
    r := Reply(200, Message("Item saved or updated"));
  }

  /** DELETE /v1/notifications/kavita/ids/:itemId: 404 when no document has that id. */
  method DeleteId(c: ItemCollection, itemId: string, fails: bool) returns (r: Reply)
    modifies c
    ensures fails ==> r == Reply(500, Error("Failed to delete item ID.")) && c.items == old(c.items)
    ensures !fails && itemId !in old(c.items) ==> r == Reply(404, Error("Item not found")) && c.items == old(c.items)
    ensures !fails && itemId in old(c.items) ==> r == Reply(200, Message("Item deleted")) && c.items == RemoveFirst(old(c.items), itemId)
  {
    if fails {
      return Reply(500, Error("Failed to delete item ID."));
    }
    if itemId !in c.items {
      return Reply(404, Error("Item not found"));
    }
    var k := IndexOf(c.items, itemId);
    c.items := c.items[..k] + c.items[k + 1..];
    r := Reply(200, Message("Item deleted"));
  }

  /** Upserting keeps the collection free of repeated ids. */
  lemma UpsertKeepsDistinct(items: seq<string>, itemId: string)
    requires NoDuplicates(items)
    ensures NoDuplicates(Upsert(items, itemId))
  {
  }

  /** Deleting an id leaves every other id listed exactly as before. */
  lemma RemoveFirstKeepsOthers(items: seq<string>, itemId: string)
    requires itemId in items
    ensures forall x :: x != itemId ==> (x in RemoveFirst(items, itemId) <==> x in items)
  {
    var r := RemoveFirst(items, itemId);
    assert forall x :: x in r <==> x in multiset(r);
    assert forall x :: x in items <==> x in multiset(items);
  }

  /** The i-th remaining document is the i-th old one, skipping the removed one. */
  lemma RemoveFirstAt(items: seq<string>, itemId: string, i: nat)
    requires itemId in items && i < |items| - 1
    ensures var k := IndexOf(items, itemId);
      RemoveFirst(items, itemId)[i] == items[if i < k then i else i + 1]
  {
  }

  /**
   * In a collection without repeats, deleting an id removes it altogether and
   * leaves a collection still without repeats.
   */
  lemma RemoveFirstDistinct(items: seq<string>, itemId: string)
    requires NoDuplicates(items) && itemId in items
    ensures itemId !in RemoveFirst(items, itemId)
    ensures NoDuplicates(RemoveFirst(items, itemId))
  {
    var r, k := RemoveFirst(items, itemId), IndexOf(items, itemId);
    forall i | 0 <= i < |r|
      ensures r[i] != itemId
    {
      RemoveFirstAt(items, itemId, i);
    }
    forall i, j | 0 <= i < j < |r|
      ensures r[i] != r[j]
    {
      RemoveFirstAt(items, itemId, i);
      RemoveFirstAt(items, itemId, j);
    }
  }

  /** Posting a new id and then deleting it leaves the collection as it was. */
  lemma PostThenDelete(items: seq<string>, itemId: string)
    requires itemId !in items
    ensures RemoveFirst(Upsert(items, itemId), itemId) == items
  {
    IndexOfNew(items, itemId);
  }
}
