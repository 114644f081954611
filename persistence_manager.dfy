/** The current store manager: create, read, update and delete Event objects
    through a managed-object context, reporting failures as `false` or `[]`. */
module PersistenceStore {
  import opened Wrappers
  import opened EventModel
  import opened EventQueries
  import opened ManagedContext

  class PersistenceManager {
    var context: Context

    constructor(context: Context)
      ensures this.context == context
    {
      this.context := context;
    }

    /** saveNewItem: inserts a fresh object, assigns the whitelisted keys of the
        field map, then saves. The object stays inserted when the save fails. */
    method SaveNewItem(eventDetails: map<string, Value>, saveOk: bool) returns (success: bool)
      modifies context
      ensures success == saveOk
      ensures context.objects == old(context.objects) + [ApplyDetails(EmptyEvent, eventDetails)]
      ensures context.saved == if saveOk then context.objects else old(context.saved)
    {
      context.Insert(EmptyEvent);
      var at := |context.objects| - 1;
      var eventItem := AssignDetails(context.objects[at], eventDetails);
      context.Replace(at, eventItem);
      success := context.Save(saveOk);
    }

    /** retrieveAllItems: every registered object, or none when the fetch throws.
        The fetch order is unspecified, so only the contents are promised. */
    function RetrieveAllItems(fetchOk: bool): (r: seq<Event>)
      reads this, context
      ensures fetchOk ==> multiset(r) == multiset(context.objects)
      ensures !fetchOk ==> r == []
    {
      if fetchOk then context.objects else []
    }

    /** retrieveById: the objects whose eventId equals `eventId` (zero, one or
        several, as often as they are registered), or none when the fetch throws. */
    function RetrieveById(eventId: string, fetchOk: bool): (r: seq<Event>)
      reads this, context
      ensures forall e :: e in r ==> HasEventId(e, eventId)
      ensures fetchOk ==> forall e :: multiset(r)[e] == if HasEventId(e, eventId) then multiset(context.objects)[e] else 0
      ensures !fetchOk ==> r == []
    {
      if fetchOk then WithEventId(context.objects, eventId) else []
    }

    /** retrieveItemsSortedByDate: every registered object, latest date first, or
        none when the fetch throws. */
    function RetrieveItemsSortedByDate(fetchOk: bool): (r: seq<Event>)
      reads this, context
      ensures fetchOk ==> multiset(r) == multiset(context.objects) && DatesNonIncreasing(r)
      ensures !fetchOk ==> r == []
    {
      if fetchOk then SortedByDateDescending(context.objects) else []
    }

    /** updateAllEventAttendees: anonymises every fetched event's attendees and
        reports whether the fetch succeeded; the changes are not saved. Reading
        the count of a missing attendee list traps, hence the precondition. */
    method UpdateAllEventAttendees(fetchOk: bool) returns (success: bool)
      requires fetchOk ==> forall i :: 0 <= i < |context.objects| ==> HasAttendeeList(context.objects[i])
      modifies context
      ensures success == fetchOk
      ensures |context.objects| == |old(context.objects)|
      ensures forall i :: 0 <= i < |context.objects| ==>
                context.objects[i] == if fetchOk then Anonymised(old(context.objects)[i]) else old(context.objects)[i]
      ensures context.saved == old(context.saved)
    {
      if fetchOk {
        AnonymiseAttendees(context);
        success := true;
      } else {
        success := false;
      }
    }

    /** updateEventItemDetails: assigns the whitelisted keys of the field map to
        the object at `at` only, then saves. */
    method UpdateEventItemDetails(at: nat, newEventItemDetails: map<string, Value>, saveOk: bool) returns (success: bool)
      requires at < |context.objects|
      modifies context
      ensures success == saveOk
      ensures context.objects == old(context.objects)[at := ApplyDetails(old(context.objects)[at], newEventItemDetails)]
      ensures context.saved == if saveOk then context.objects else old(context.saved)
    {
      var eventItemToUpdate := AssignDetails(context.objects[at], newEventItemDetails);
      context.Replace(at, eventItemToUpdate);
      success := context.Save(saveOk);
    }

    /** deleteAllItems: deletes whatever retrieveAllItems returned (nothing when
        that fetch failed), then saves and reports the save outcome. */
    method DeleteAllItems(fetchOk: bool, saveOk: bool) returns (success: bool)
      modifies context
      ensures success == saveOk
      ensures context.objects == if fetchOk then [] else old(context.objects)
      ensures context.saved == if saveOk then context.objects else old(context.saved)
    {
      var retrievedItems := RetrieveAllItems(fetchOk);
      DeleteObjects(context, retrievedItems);
      success := context.Save(saveOk);
    }

    /** deleteItem: deletes exactly the object at `at`, then saves. */
    method DeleteItem(at: nat, saveOk: bool) returns (success: bool)
      requires at < |context.objects|
      modifies context
      ensures success == saveOk
      ensures context.objects == RemovedAt(old(context.objects), at)
      ensures context.saved == if saveOk then context.objects else old(context.saved)
    {
      context.DeleteObject(at);
      success := context.Save(saveOk);
    }
  }

  /** A newly created item is found by its id at once, whether or not its save
      succeeded: fetches see pending insertions. */
  method CreatedItemIsFound(stored: seq<Event>, eventDetails: map<string, Value>, id: string, saveOk: bool)
    returns (found: seq<Event>)
    requires "eventId" in eventDetails && eventDetails["eventId"] == Text(id)
    ensures ApplyDetails(EmptyEvent, eventDetails) in found
  {
    var context := new Context(stored);
    var manager := new PersistenceManager(context);
    var _ := manager.SaveNewItem(eventDetails, saveOk);
    found := manager.RetrieveById(id, true);
    var item := ApplyDetails(EmptyEvent, eventDetails);
    assert Get(item, EventId) == Some(Text(id));
    assert multiset(context.objects)[item] > 0;
  }

  /** After deleteAllItems with a successful fetch, nothing is retrieved any more. */
  method DeleteAllLeavesNothing(stored: seq<Event>, saveOk: bool, fetchOk: bool)
    returns (retrieved: seq<Event>, sorted: seq<Event>)
    ensures retrieved == [] && sorted == []
  {
    var context := new Context(stored);
    var manager := new PersistenceManager(context);
    var _ := manager.DeleteAllItems(true, saveOk);
    retrieved := manager.RetrieveAllItems(fetchOk);
    sorted := manager.RetrieveItemsSortedByDate(fetchOk);
  }
}
