/** The managed-object context both store managers work through, reduced to
    what they observe: the registered objects and the saved store. */
module ManagedContext {
  import opened EventModel
  import opened EventQueries

  /** A managed-object context over the Event entity. A managed object is
      identified by its position in `objects`. */
  class Context {
    /** The registered objects, pending insertions, changes and deletions
        included: what a fetch request returns. */
    var objects: seq<Event>
    /** The store contents as of the last successful save. */
    var saved: seq<Event>

    /** A context opened on a store holding `stored`, with no pending changes. */
    constructor(stored: seq<Event>)
      ensures objects == stored && saved == stored
    {
      objects := stored;
      saved := stored;
    }

    /** Inserts a new object (insertIntoManagedObjectContext); it stays pending until a save. */
    method Insert(e: Event)
      modifies this
      ensures objects == old(objects) + [e]
      ensures saved == old(saved)
    {
      objects := objects + [e];
    }

    /** Writes back the attributes of one registered object. */
    method Replace(at: nat, e: Event)
      requires at < |objects|
      modifies this
      ensures objects == old(objects)[at := e]
      ensures saved == old(saved)
    {
      objects := objects[at := e];
    }

    /** deleteObject: unregisters one object; the store keeps it until a save. */
    method DeleteObject(at: nat)
      requires at < |objects|
      modifies this
      ensures objects == RemovedAt(old(objects), at)
      ensures saved == old(saved)
    {
      objects := RemovedAt(objects, at);
    }

    /** save: `saveOk` is the outcome the store reports. A failed save keeps the
        pending changes registered and rolls nothing back. */
    method Save(saveOk: bool) returns (success: bool)
      modifies this
      ensures success == saveOk
      ensures objects == old(objects)
      ensures saved == if saveOk then old(objects) else old(saved)
    {
      if saveOk {
        saved := objects;
      }
      success := saveOk;
    }
  }

  /** The batch attendee update shared by both managers: every fetched event's
      attendees become a same-length list of "anon". */
  method AnonymiseAttendees(context: Context)
    requires forall i :: 0 <= i < |context.objects| ==> HasAttendeeList(context.objects[i])
    modifies context
    ensures |context.objects| == |old(context.objects)|
    ensures forall i :: 0 <= i < |context.objects| ==> context.objects[i] == Anonymised(old(context.objects)[i])
    ensures context.saved == old(context.saved)
  {
    var n := |context.objects|;
    for i := 0 to n
      invariant |context.objects| == n && context.saved == old(context.saved)
      invariant forall k :: 0 <= k < i ==> context.objects[k] == Anonymised(old(context.objects)[k])
      invariant forall k :: i <= k < n ==> context.objects[k] == old(context.objects)[k]
    {
      context.Replace(i, Anonymised(context.objects[i]));
    }
  }

  /** The deletion loop shared by both managers: deletes every retrieved item.
      The retrieved items are the registered objects in fetch order, or none. */
  method DeleteObjects(context: Context, retrievedItems: seq<Event>)
    requires retrievedItems <= context.objects
    modifies context
    ensures context.objects == old(context.objects)[|retrievedItems|..]
    ensures context.saved == old(context.saved)
  {
    for k := 0 to |retrievedItems|
      invariant context.objects == old(context.objects)[k..]
      invariant context.saved == old(context.saved)
    {
      assert context.objects[0] == retrievedItems[k];
      context.DeleteObject(0);
      assert old(context.objects)[k..][1..] == old(context.objects)[k + 1..];
    }
  }
}
