/** The older store manager. It performs the same operations as the current
    one, but follows the earlier Core Data error conventions: a failed fetch is
    a forced unwrap of nil and a failed batch save calls abort(); both end the
    process, written here as `Crashed`. */
module LegacyEventStore {
  import opened Wrappers
  import opened EventModel
  import opened EventQueries
  import opened ManagedContext
  import PersistenceStore

  class EventManager {
    var context: Context

    constructor(context: Context)
      ensures this.context == context
    {
      this.context := context;
    }

    /** saveNewItem: the same insertion and whitelisted assignment as the current
        manager, but the result is the negation of the save outcome. */
    method SaveNewItem(eventDetails: map<string, Value>, saveOk: bool) returns (succeeded: bool)
      modifies context
      ensures succeeded == !saveOk
      ensures context.objects == old(context.objects) + [ApplyDetails(EmptyEvent, eventDetails)]
      ensures context.saved == if saveOk then context.objects else old(context.saved)
    {
      context.Insert(EmptyEvent);
      var at := |context.objects| - 1;
      var eventItem := AssignDetails(context.objects[at], eventDetails);
      context.Replace(at, eventItem);
      var saveResult := context.Save(saveOk);
      succeeded := !saveResult;
    }

    /** retrieveAllItems: every registered object; a failed fetch crashes. */
    function RetrieveAllItems(fetchOk: bool): (r: Completion<seq<Event>>)
      reads this, context
      ensures r.Crashed? <==> !fetchOk
      ensures r.Finished? ==> multiset(r.value) == multiset(context.objects)
    {
      if fetchOk then Finished(context.objects) else Crashed
    }

    /** retrieveById: the objects whose eventId equals `eventId`; a failed fetch crashes. */
    function RetrieveById(eventId: string, fetchOk: bool): (r: Completion<seq<Event>>)
      reads this, context
      ensures r.Crashed? <==> !fetchOk
      ensures r.Finished? ==> forall e :: e in r.value ==> HasEventId(e, eventId)
      ensures r.Finished? ==>
                forall e :: multiset(r.value)[e] == if HasEventId(e, eventId) then multiset(context.objects)[e] else 0
    {
      if fetchOk then Finished(WithEventId(context.objects, eventId)) else Crashed
    }

    /** retrieveItemsSortedByDate: every registered object, latest date first
        (the sort descriptor is descending, whatever its comment says); a failed
        fetch crashes. */
    function RetrieveItemsSortedByDate(fetchOk: bool): (r: Completion<seq<Event>>)
      reads this, context
      ensures r.Crashed? <==> !fetchOk
      ensures r.Finished? ==> multiset(r.value) == multiset(context.objects) && DatesNonIncreasing(r.value)
    {
      if fetchOk then Finished(SortedByDateDescending(context.objects)) else Crashed
    }

    /** updateAllEventAttendees: when the fetch fails nothing happens; otherwise
        every event is anonymised and saved, and a failed save aborts. It reports
        true whenever it returns. */
    method UpdateAllEventAttendees(fetchOk: bool, saveOk: bool) returns (r: Completion<bool>)
      requires fetchOk ==> forall i :: 0 <= i < |context.objects| ==> HasAttendeeList(context.objects[i])
      modifies context
      ensures r == if fetchOk && !saveOk then Crashed else Finished(true)
      ensures |context.objects| == |old(context.objects)|
      ensures forall i :: 0 <= i < |context.objects| ==>
                context.objects[i] == if fetchOk then Anonymised(old(context.objects)[i]) else old(context.objects)[i]
      ensures context.saved == if fetchOk && saveOk then context.objects else old(context.saved)
    {
      if fetchOk {
        AnonymiseAttendees(context);
        var saveResult := context.Save(saveOk);
        if !saveResult {
          return Crashed;
        }
      }
      r := Finished(true);
    }

    /** deleteAllItems: deletes every retrieved object, saves ignoring the
        outcome, and reports whether a second fetch comes back empty. Fetches see
        the pending deletions, so that report is true even when the save failed. */
    method DeleteAllItems(fetchOk: bool, saveOk: bool, refetchOk: bool) returns (r: Completion<bool>)
      modifies context
      ensures r == if fetchOk && refetchOk then Finished(true) else Crashed
      ensures context.objects == if fetchOk then [] else old(context.objects)
      ensures context.saved == if fetchOk && saveOk then [] else old(context.saved)
    {
      var retrievedItems := RetrieveAllItems(fetchOk);
      if retrievedItems.Crashed? {
        return Crashed;
      }
      DeleteObjects(context, retrievedItems.value);
      var _ := context.Save(saveOk);
      var remaining := RetrieveAllItems(refetchOk);
      if remaining.Crashed? {
        return Crashed;
      }
      r := Finished(|remaining.value| == 0);
    }
  }

  /** Both managers store the same new object, but on a successful save the older
      one reports failure and the current one reports success. */
  method SaveNewItemResultsDiffer(stored: seq<Event>, eventDetails: map<string, Value>)
    returns (legacyReport: bool, legacyStored: seq<Event>, currentReport: bool, currentStored: seq<Event>)
    ensures legacyStored == currentStored == stored + [ApplyDetails(EmptyEvent, eventDetails)]
    ensures !legacyReport && currentReport
  {
    var legacyContext := new Context(stored);
    var legacy := new EventManager(legacyContext);
    legacyReport := legacy.SaveNewItem(eventDetails, true);
    legacyStored := legacyContext.saved;
    var currentContext := new Context(stored);
    var current := new PersistenceStore.PersistenceManager(currentContext);
    currentReport := current.SaveNewItem(eventDetails, true);
    currentStored := currentContext.saved;
  }

  /** When the save of deleteAllItems fails, the store still holds every event;
      the current manager reports false, the older one true. */
  method DeleteAllItemsResultsDiffer(stored: seq<Event>)
    returns (legacyReport: Completion<bool>, legacyStored: seq<Event>, currentReport: bool, currentStored: seq<Event>)
    ensures legacyStored == currentStored == stored
    ensures legacyReport == Finished(true) && !currentReport
  {
    var legacyContext := new Context(stored);
    var legacy := new EventManager(legacyContext);
    legacyReport := legacy.DeleteAllItems(true, false, true);
    legacyStored := legacyContext.saved;
    var currentContext := new Context(stored);
    var current := new PersistenceStore.PersistenceManager(currentContext);
    currentReport := current.DeleteAllItems(true, false);
    currentStored := currentContext.saved;
  }
}
