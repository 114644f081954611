# CoreDataCRUD in Dafny

This project is a Dafny model of the core of CoreDataCRUD, an iOS sample app. The app keeps a list of music
events in a Core Data store and fills that store from a bundled JSON file and from a remote HTTP endpoint.

The model covers:

- **Event schema.** `EventModel` holds the nine attribute names, the `getAll` whitelist and the `Event`
  record with one optional value per attribute. It also holds the nested key/attribute loop that copies the
  whitelisted keys of a field map onto an event.
- **Managed-object context.** `ManagedContext.Context` is a class with two fields:
  - `objects` holds the registered objects, pending changes included. Fetches read this field.
  - `saved` holds the store as of the last successful save.

  The outcomes of saves and fetches are boolean parameters.
- **Current store manager.** `PersistenceStore.PersistenceManager` reports failures as `false` or `[]`.
- **Older store manager.** `LegacyEventStore.EventManager` follows the earlier conventions:
  - A failed fetch is a forced unwrap of nil.
  - A failed batch save calls `abort()`.

  Both end the process, written `Crashed` (`Wrappers.Completion`).
- **Text rendering.** `EventText` models the `printEventList` rendering that both managers share.
- **Event list screen.** `EventTable` models the search filter over title, venue and city, and the list
  state the table reads: row count, cell source, delete-at-row and the title count.
- **Attendee generator.** `Attendees` models the generator loop and its live constants.
- **Ingestion.** `Replicators` models the ingestion loop shared by the local and remote replicators, and the
  status-200 gate of the remote fetch.
- **HTTP.** `HttpClient` models the query string builder, the status lookup and the completion handler of a
  GET. `HttpStatus` and `HttpStatusOrder` model the status table of section 10 of RFC 2616, with 306 "Unused".

A few behaviours of the code are easy to miss, and the model states each one:

- A fetch sees pending insertions and deletions. A created item is therefore found at once, even when its save
  failed, and the older `deleteAllItems` reports `true` even when its save failed.
- `fetchData` unwraps the status code by force, so a transport error ends the process.
- `getHTTPStatusCode` unwraps its result by force, so a code missing from the table ends the process.
- Most points of the code that trap are `Crashed` outcomes in the model. These include a delete at a row
  past the end of the event list, a parsed array element that is not an object, and a picked position outside
  the attendee pool. There are two exceptions, both listed under "## Left out":
  - The attendee count in `updateAllEventAttendees` is a precondition.
  - A parse result whose top level is not an array cannot be represented.
- Deleting a table row raises an exception unless the row count afterwards is one less than before. While
  search is active the count comes from the untouched search results, so a delete there fails after the
  event list has already changed.

Three behaviours of the code look unintended. They are listed under "## Findings", each with the as-written
member, a witness, and a corrected member.

## Model

| member | source | states |
|---|---|---|
| Wrappers.Decimal | CoreDataCRUD/EventTableViewController.swift:38 | the `%i` rendering of a count is a non-empty string of decimal digits |
| Wrappers.DecimalRoundTrip | CoreDataCRUD/EventTableViewController.swift:123 | reading back a rendered count gives the count |
| EventModel.RawNames | CoreDataCRUD/Event.swift:26-36 | the raw names of a list of attributes, position by position |
| EventModel.GetAllListsEveryAttributeOnce | CoreDataCRUD/Event.swift:26-36 | getAll has nine entries; every attribute appears in it, and no attribute appears twice |
| EventModel.RawValue | CoreDataCRUD/Event.swift:15-24 | each attribute's raw string, the key it is stored and looked up under |
| EventModel.RawValueInjective | CoreDataCRUD/Event.swift:15-24 | distinct attributes have distinct raw strings |
| EventModel.WhitelistCopiesAgree | CoreDataCRUD/Constants.swift:29-51 | the whitelist in the constants file and the one in EventManager.swift:10-33 equal the raw names of getAll |
| EventModel.IndexOf | CoreDataCRUD/Event.swift:26-36 | every attribute sits at a position of getAll |
| EventModel.FromRaw | CoreDataCRUD/Event.swift:14-37 | a key maps to the attribute with that raw string, and to none when no attribute has it |
| EventModel.FromRawOfRawValue | CoreDataCRUD/Event.swift:15-24 | the raw string of an attribute looks up that same attribute |
| EventModel.EmptyEvent | CoreDataCRUD/PersistenceManager.swift:39-40 | the freshly inserted object: every attribute nil |
| EventModel.Get | CoreDataCRUD/PersistenceManager.swift:290-292 | `valueForKey`: the value of the named attribute, nil when unset |
| EventModel.Set | CoreDataCRUD/PersistenceManager.swift:46 | setValue(_:forKey:) sets the named attribute and leaves the other eight unchanged |
| EventModel.FieldsDetermineEvent | CoreDataCRUD/Event.swift:44-54 | the record has no stored field besides the nine attributes: agreeing on every attribute means being equal |
| EventModel.ApplyAttributesGet | CoreDataCRUD/PersistenceManager.swift:43-49 | after walking a list of attributes, each listed attribute whose key is in the map holds the map's value; every other attribute is unchanged |
| EventModel.ApplyDetails | CoreDataCRUD/PersistenceManager.swift:43-49 | every attribute whose raw name is a key of the map gets the map's value; every other attribute keeps its old value |
| EventModel.UnknownKeyIgnored | CoreDataCRUD/PersistenceManager.swift:43-49 | adding a key that is not whitelisted to the map never changes the resulting event |
| EventModel.OnlyWhitelistedKeysMatter | CoreDataCRUD/EventManager.swift:71-77 | two maps that agree on the whitelisted keys produce the same event |
| EventModel.AssignKey | CoreDataCRUD/PersistenceManager.swift:43-49 | one pass of the inner getAll loop for one key: the attribute with that raw name gets the value; a key naming no attribute changes nothing |
| EventModel.AssignKeyExtends | CoreDataCRUD/PersistenceManager.swift:44-48 | one pass of the inner loop over getAll extends the assignment by exactly one key |
| EventModel.Restrict | CoreDataCRUD/PersistenceManager.swift:43 | the part of the map already visited by the outer loop |
| EventModel.AssignDetails | CoreDataCRUD/PersistenceManager.swift:43-49 | the nested loop, visiting keys in any iteration order, yields ApplyDetails of the map |
| EventQueries.Filter | CoreDataCRUD/PersistenceManager.swift:94-115 | the kept elements come from the list and satisfy the predicate, and there are no more of them than of the input |
| EventQueries.FilterCount | CoreDataCRUD/PersistenceManager.swift:94-115 | each element is kept exactly as often as it occurs when it satisfies the predicate, and never otherwise |
| EventQueries.FilterAppend | CoreDataCRUD/EventTableViewController.swift:179 | filtering distributes over concatenation |
| EventQueries.FilterIsSubsequence | CoreDataCRUD/EventTableViewController.swift:179 | the kept elements are a subsequence of the list (order preserved) |
| EventQueries.SubsequenceExtend | CoreDataCRUD/EventTableViewController.swift:179 | a subsequence stays a subsequence when the list grows at its end |
| EventQueries.SubsequenceDropLast | CoreDataCRUD/EventTableViewController.swift:179 | dropping the last element of a subsequence keeps a subsequence |
| EventQueries.HasEventId | CoreDataCRUD/PersistenceManager.swift:101-103 | the fetch predicate: the eventId attribute holds exactly the given string |
| EventQueries.WithEventId | CoreDataCRUD/PersistenceManager.swift:94-115 | every result has the id; each stored event with the id is returned as often as it is stored, and no other event is returned |
| EventQueries.LaterOrSame | CoreDataCRUD/PersistenceManager.swift:129-133 | the descending date order: a later date first, and an event without a date after every dated one |
| EventQueries.LaterOrSameTransitive | CoreDataCRUD/PersistenceManager.swift:129-133 | the descending date order is transitive |
| EventQueries.ConsSorted | CoreDataCRUD/PersistenceManager.swift:129-133 | an event that may precede every event of a sorted list may head it |
| EventQueries.InsertByDate | CoreDataCRUD/PersistenceManager.swift:129-133 | inserting into a date-sorted list gives a sorted permutation of the list plus the event |
| EventQueries.PrecedesSorted | CoreDataCRUD/PersistenceManager.swift:129-133 | an event that may precede the head of a date-sorted list may precede every element of it |
| EventQueries.HeadPrecedesInsertion | CoreDataCRUD/PersistenceManager.swift:129-133 | the head of a sorted list may precede its tail with a later-sorting event inserted |
| EventQueries.SortedByDateDescending | CoreDataCRUD/PersistenceManager.swift:124-145 | the sort result is a permutation of the input with dates non-increasing |
| EventQueries.Anonymised | CoreDataCRUD/PersistenceManager.swift:171-179 | the attendees become a list of "anon" of the same length; all other attributes are unchanged |
| EventQueries.AnonymisedIdempotent | CoreDataCRUD/PersistenceManager.swift:171-179 | anonymising twice is the same as anonymising once |
| EventQueries.RemovedAt | CoreDataCRUD/PersistenceManager.swift:254-271 | removing one position keeps the elements before it and shifts the later ones down by one |
| EventQueries.RemovedAtCount | CoreDataCRUD/PersistenceManager.swift:254-271 | removing one position takes away exactly one occurrence of that element |
| EventText.Block | CoreDataCRUD/PersistenceManager.swift:288-300 | one event's block: "\n{\n", its non-nil attributes in getAll order, then "\n}" |
| EventText.Blocks | CoreDataCRUD/PersistenceManager.swift:285-301 | one block per event, in list order |
| EventText.Rendering | CoreDataCRUD/PersistenceManager.swift:280-304 | the printed text: "<(", the blocks joined by ", ", then ")>\n" |
| EventText.PrintEventList | CoreDataCRUD/PersistenceManager.swift:280-304 | the output is "<(", then the events' blocks separated by ", ", then ")>\n"; each block is "\n{\n", the non-nil attributes in getAll order, then "\n}" |
| EventText.AppendAttributes | CoreDataCRUD/PersistenceManager.swift:289-294 | the inner loop appends `name: value` for each non-nil attribute, in getAll order |
| EventText.AttributeTextSnoc | CoreDataCRUD/PersistenceManager.swift:289-294 | one more attribute adds exactly its entry, or nothing when it is nil |
| EventText.ProgressDone | CoreDataCRUD/PersistenceManager.swift:285-303 | once every event is printed, the output is the joined blocks |
| EventText.ProgressStep | CoreDataCRUD/PersistenceManager.swift:285-301 | each round adds the next block, followed by ", " unless it is the last block |
| EventText.ConcatBlock | CoreDataCRUD/PersistenceManager.swift:296-300 | the "\n}, " closing is the "\n}" closing followed by the separator |
| EventText.JoinStep | CoreDataCRUD/PersistenceManager.swift:296-300 | the joined text is the join of all but the last part, then ", " when there are more parts, then the last part |
| EventText.EmptyListRendering | CoreDataCRUD/PersistenceManager.swift:280-304 | an empty list renders as "<()>\n" |
| EventText.NilAttributesSkipped | CoreDataCRUD/PersistenceManager.swift:290-293 | an object with every attribute nil prints no entries |
| EventText.JoinAppend | CoreDataCRUD/PersistenceManager.swift:296-300 | joining two lists puts ", " between the two joins |
| EventText.RenderingAppend | CoreDataCRUD/PersistenceManager.swift:280-304 | the rendering of a concatenation is the two block lists joined by ", " (the copy at EventManager.swift:244-268 renders the same way) |
| EventText.BlocksAppend | CoreDataCRUD/PersistenceManager.swift:285-301 | the blocks of a concatenation are the blocks of each part, concatenated |
| EventText.RenderingShape | CoreDataCRUD/PersistenceManager.swift:280-304 | a non-empty rendering starts with "<(" and the first block, and ends with the last block and ")>\n" |
| EventText.JoinStartsWithFirst | CoreDataCRUD/PersistenceManager.swift:285-301 | the joined blocks start with the first block |
| EventText.JoinEndsWithLast | CoreDataCRUD/PersistenceManager.swift:296-300 | the joined blocks end with the last block |
| ManagedContext.Context.constructor | CoreDataCRUD/PersistenceManager.swift:18-22 | the context object the manager receives, abstracted as its registered and stored objects; a fresh one registers exactly the stored objects |
| ManagedContext.Context.Insert | CoreDataCRUD/PersistenceManager.swift:38-40 | insertion appends the new object as a pending change; the store is unchanged |
| ManagedContext.Context.Replace | CoreDataCRUD/PersistenceManager.swift:198-204 | writing back one object changes that position only; the store is unchanged |
| ManagedContext.Context.DeleteObject | CoreDataCRUD/PersistenceManager.swift:259-260 | deleting unregisters exactly that object; the store keeps it until a save |
| ManagedContext.Context.Save | CoreDataCRUD/PersistenceManager.swift:52-59 | a successful save stores the registered objects; a failed one changes nothing and rolls nothing back |
| ManagedContext.AnonymiseAttendees | CoreDataCRUD/PersistenceManager.swift:170-180 | every registered event is replaced by its anonymised form, in place; the store is unchanged |
| ManagedContext.DeleteObjects | CoreDataCRUD/PersistenceManager.swift:234-236 | deleting the retrieved items removes exactly that prefix of the registered objects |
| PersistenceStore.PersistenceManager.constructor | CoreDataCRUD/PersistenceManager.swift:20-22 | the manager works through the given context |
| PersistenceStore.PersistenceManager.SaveNewItem | CoreDataCRUD/PersistenceManager.swift:32-62 | the new event is the empty event with the whitelisted keys applied; it is registered whether or not the save succeeds; the result is the save outcome |
| PersistenceStore.PersistenceManager.RetrieveAllItems | CoreDataCRUD/PersistenceManager.swift:71-86 | every registered object (order unspecified), or none when the fetch fails |
| PersistenceStore.PersistenceManager.RetrieveById | CoreDataCRUD/PersistenceManager.swift:94-115 | exactly the registered events with that eventId (zero, one or several), or none when the fetch fails |
| PersistenceStore.PersistenceManager.RetrieveItemsSortedByDate | CoreDataCRUD/PersistenceManager.swift:124-145 | a permutation of the registered events, latest date first, or none when the fetch fails |
| PersistenceStore.PersistenceManager.UpdateAllEventAttendees | CoreDataCRUD/PersistenceManager.swift:158-188 | when the fetch succeeds every event is anonymised, with the set of events and other fields unchanged; nothing is saved; the result is the fetch outcome |
| PersistenceStore.PersistenceManager.UpdateEventItemDetails | CoreDataCRUD/PersistenceManager.swift:195-217 | only the target object changes, and only in its whitelisted keys present in the map; the result is the save outcome |
| PersistenceStore.PersistenceManager.DeleteAllItems | CoreDataCRUD/PersistenceManager.swift:226-247 | every registered object is deleted (none when the fetch fails); the result is the save outcome |
| PersistenceStore.PersistenceManager.DeleteItem | CoreDataCRUD/PersistenceManager.swift:254-271 | exactly the given object is deleted and the rest keep their order; the result is the save outcome |
| PersistenceStore.CreatedItemIsFound | CoreDataCRUD/PersistenceManager.swift:32-115 | an item just created is found by its id, whether or not its save succeeded |
| PersistenceStore.DeleteAllLeavesNothing | CoreDataCRUD/PersistenceManager.swift:71-145 | after deleteAllItems with a successful fetch, both retrievals come back empty |
| LegacyEventStore.EventManager.constructor | CoreDataCRUD/EventManager.swift:44-49 | the manager works through the given context |
| LegacyEventStore.EventManager.SaveNewItem | CoreDataCRUD/EventManager.swift:59-86 | the same insertion and assignment as the current manager; the result is the negation of the save outcome |
| LegacyEventStore.EventManager.RetrieveAllItems | CoreDataCRUD/EventManager.swift:95-107 | every registered object; the call crashes exactly when the fetch fails |
| LegacyEventStore.EventManager.RetrieveById | CoreDataCRUD/EventManager.swift:115-132 | exactly the registered events with that eventId; the call crashes exactly when the fetch fails |
| LegacyEventStore.EventManager.RetrieveItemsSortedByDate | CoreDataCRUD/EventManager.swift:141-159 | a permutation, latest date first (descending, whatever the comment says); the call crashes exactly when the fetch fails |
| LegacyEventStore.EventManager.UpdateAllEventAttendees | CoreDataCRUD/EventManager.swift:173-210 | when the fetch succeeds every event is anonymised and saved, and a failed save aborts; otherwise nothing changes; the result is always true when the call returns |
| LegacyEventStore.EventManager.DeleteAllItems | CoreDataCRUD/EventManager.swift:220-236 | the retrieved objects are deleted and the save outcome is ignored; the result is whether a second fetch is empty, which is always true when the call returns |
| LegacyEventStore.SaveNewItemResultsDiffer | CoreDataCRUD/EventManager.swift:81 | after a successful save both managers store the same new event, yet the older one reports failure |
| LegacyEventStore.DeleteAllItemsResultsDiffer | CoreDataCRUD/EventManager.swift:220-236 | when the save fails the store still holds every event; the older manager reports true and the current one false |
| EventTable.Lower | CoreDataCRUD/EventTableViewController.swift:169-175 | lower-casing keeps the length and lower-cases each character |
| EventTable.LowerIdempotent | CoreDataCRUD/EventTableViewController.swift:169-175 | lower-casing twice is lower-casing once |
| EventTable.OccursAt | CoreDataCRUD/EventTableViewController.swift:169-175 | the search finds the term exactly when some slice of the text equals it |
| EventTable.OtherAttributesNotSearched | CoreDataCRUD/EventTableViewController.swift:168-176 | changing the country, date, URLs, id or attendees never changes whether an event matches |
| EventTable.LowercasedTermSameMatches | CoreDataCRUD/EventTableViewController.swift:169-175 | matching is insensitive to the case of the term |
| EventTable.VenueMatchIgnoresCase | CoreDataCRUD/EventTableViewController.swift:170 | "milkyway" matches an event whose venue is "The Milkyway" |
| EventTable.SearchResults | CoreDataCRUD/EventTableViewController.swift:162-180 | in order, exactly the events of the list whose title, venue or city contains the term ignoring case, each as often as it occurs |
| EventTable.ContainsIgnoringCase | CoreDataCRUD/EventTableViewController.swift:169-171 | `contains[c]`: the lower-cased term occurs in the lower-cased text; an empty term matches nothing |
| EventTable.Matches | CoreDataCRUD/EventTableViewController.swift:169-176 | the OR of the three predicates: the title, the venue or the city contains the term |
| EventTable.TitleFor | CoreDataCRUD/EventTableViewController.swift:38 | the screen title "Upcoming events (n)" for a count n |
| EventTable.TitleShowsCount | CoreDataCRUD/EventTableViewController.swift:38 | two titles are equal exactly when their counts are |
| EventTable.EventTableViewController.constructor | CoreDataCRUD/EventTableViewController.swift:36-38 | the screen shows the events in the date range and counts them in the title; no search is active |
| EventTable.EventTableViewController.SetSearchActive | CoreDataCRUD/EventTableViewController.swift:48 | the search controller's `isActive`, read by the row count and the cell source, is an input set from outside: it becomes active or inactive, and nothing else changes |
| EventTable.EventTableViewController.FilterEventListContent | CoreDataCRUD/EventTableViewController.swift:162-180 | the previous results are replaced by the search results of the unchanged event list |
| EventTable.EventTableViewController.RefreshTableData | CoreDataCRUD/EventTableViewController.swift:198-203 | the event list is reloaded and the title counts it |
| EventTable.EventTableViewController.Shown | CoreDataCRUD/EventTableViewController.swift:47-65 | the search results while searching, every event otherwise |
| EventTable.EventTableViewController.NumberOfRows | CoreDataCRUD/EventTableViewController.swift:47-53 | the row count is the length of the list shown |
| EventTable.EventTableViewController.CellEvent | CoreDataCRUD/EventTableViewController.swift:59-65 | the cell at a row holds that row of the list shown |
| EventTable.EventTableViewController.DeleteRow | CoreDataCRUD/EventTableViewController.swift:115-124 | removes element `row` of the event list, whether or not search is active; a row past the end crashes and changes nothing; while searching, the row-count check of the table delete fails, so the call crashes after the list has changed and before the title is recounted; otherwise the title counts the new length |
| EventTable.EventTableViewController.DeleteShownRow | CoreDataCRUD/EventTableViewController.swift:115-124 | the delete as intended: without search, removes that row; while searching, removes the first occurrence of the shown event from the event list, keeping the order of the rest, and the row itself from the search results; the row count drops by exactly one, so the table's check holds |
| EventTable.SearchedCellMatches | CoreDataCRUD/EventTableViewController.swift:59-65 | while searching, every shown cell holds a listed event that matches the term |
| EventTable.DeleteWhileSearchingRemovesOther | CoreDataCRUD/EventTableViewController.swift:115-124 | deleting the only search result while searching keeps it and removes the other event: what remains is exactly the shown event, and the delete then crashes |
| Attendees.Picked | CoreDataCRUD/AttendeesGenerator.swift:43-44 | each picked position names the pool entry at that index |
| Attendees.FirstPicks | CoreDataCRUD/AttendeesGenerator.swift:44-47 | the kept names are the picked names, each once, and no more than were picked |
| Attendees.FirstPicksInPickOrder | CoreDataCRUD/AttendeesGenerator.swift:45-47 | the kept names are a subsequence of the picks |
| Attendees.FirstPicksByFirstPick | CoreDataCRUD/AttendeesGenerator.swift:44-47 | the kept names are ordered by first pick: of two kept names, the one listed earlier was first picked at an earlier round |
| Attendees.GenerateAttendees | CoreDataCRUD/AttendeesGenerator.swift:20-51 | listSize + 1 rounds; a picked position outside the pool crashes; otherwise the result is the first picks, with no duplicates, at most listSize + 1 names, every one from the 14-name pool |
| Attendees.GetSemiRandomGeneratedAttendeesList | CoreDataCRUD/AttendeesGenerator.swift:40-43 | with the live constants the result is exactly ["Yoda"] |
| Replicators.Processed | CoreDataCRUD/LocalReplicator.swift:91-104 | the title is the tag followed by the old title, the eventId is the fresh id, the attendees are the generated list; every other key is unchanged |
| Replicators.Processable | CoreDataCRUD/RemoteReplicator.swift:89-93 | an element gets through the loop body: it is an object and has a title |
| Replicators.ProcessItems | CoreDataCRUD/LocalReplicator.swift:89-105 | one processed entry per input item, in order; an element that is not an object, or has no title, crashes |
| Replicators.LocalProcessData | CoreDataCRUD/LocalReplicator.swift:86-110 | the batch carries the "[LOCAL] " tag; a nil input still submits an empty batch; the call crashes exactly when some element is not an object or has no title |
| Replicators.RemoteProcessData | CoreDataCRUD/RemoteReplicator.swift:74-109 | the batch carries the "[REMOTE] " tag; an undecodable payload submits an empty batch; otherwise the call crashes exactly when some element is not an object or has no title |
| Replicators.FetchData | CoreDataCRUD/RemoteReplicator.swift:40-65 | data is processed only on status 200; another status is only logged (or crashes if it is not in the table); a transport error crashes. On status 200, missing data crashes; otherwise the call crashes exactly when the payload decodes and some element is not an object or has no title, and when it does not crash it submits the processed batch (empty for an undecodable payload) |
| HttpClient.EachFollowedIsJoinedPlusOne | CoreDataCRUD/HTTPClient.swift:46-57 | following every pair with "&" is joining the pairs and appending one "&" |
| HttpClient.PairsStep | CoreDataCRUD/HTTPClient.swift:46-57 | one more parameter adds its `key=value` to either rendering, after an "&" when it is not the first |
| HttpClient.QueryBuilder | CoreDataCRUD/HTTPClient.swift:41-61 | "?" and each `key=value` once in iteration order, "&" between them, and a trailing "&" when there are two or more |
| HttpClient.QueryBuilderCorrected | CoreDataCRUD/HTTPClient.swift:41-61 | "?" and the pairs joined by "&", with nothing after the last pair |
| HttpClient.TrailingAmpersand | CoreDataCRUD/HTTPClient.swift:53-57 | with two parameters the query as written ends in "&" and the intended one does not |
| HttpClient.GetHTTPStatusCode | CoreDataCRUD/HTTPClient.swift:99-109 | the table entry whose raw value is the code; a code missing from the table crashes |
| HttpClient.StatusError | CoreDataCRUD/HTTPClient.swift:80-82 | the error carries the app's domain and the status code |
| HttpClient.DoGetCompletion | CoreDataCRUD/HTTPClient.swift:70-91 | a transport error is passed on with no data and no status; an HTTP response delivers data only on 200, and an error with the status otherwise |
| HttpStatus.RawValue | CoreDataCRUD/HTTPStatusCode.swift:15-64 | each case's numeric status code, as declared |
| HttpStatus.CaseName | CoreDataCRUD/HTTPClient.swift:81 | the case name that `\(httpStatus)` interpolates into the status error's description |
| HttpStatus.IndexOf | CoreDataCRUD/HTTPStatusCode.swift:66-108 | every case sits at a position of getAll |
| HttpStatus.CodesWithinDeclaredClass | CoreDataCRUD/HTTPStatusCode.swift:15-64 | each code is in the class it is declared under (its hundreds digit), and all codes are in 100..505 |
| HttpStatus.NamedCodes | CoreDataCRUD/HTTPStatusCode.swift:20 | ok has raw value 200 and case name "ok"; unused (306) is in the table |
| HttpStatusOrder.CodeAtAscending | CoreDataCRUD/HTTPStatusCode.swift:66-108 | the per-position code is strictly ascending |
| HttpStatusOrder.RawValueAtPosition | CoreDataCRUD/HTTPStatusCode.swift:15-64 | each case's raw value is the code of its position in the table |
| HttpStatusOrder.PositionHoldsItsCase | CoreDataCRUD/HTTPStatusCode.swift:66-108 | each position of getAll holds the case whose position it is |
| HttpStatusOrder.GetAllAscending | CoreDataCRUD/HTTPStatusCode.swift:66-108 | getAll is in strictly ascending raw-value order |
| HttpStatusOrder.RawValueInjective | CoreDataCRUD/HTTPStatusCode.swift:15-64 | distinct cases have distinct raw values |
| HttpStatusOrder.GetAllListsEveryCaseOnce | CoreDataCRUD/HTTPStatusCode.swift:66-108 | getAll has 41 entries; every case appears in it, and no case appears twice |

## Left out

- Core Data itself is not part of this model: entity descriptions, fetch requests, predicates, the SQLite store and its setup (`DatastoreCoordinator.swift`). A context is reduced to its registered objects and its saved store, and save and fetch outcomes are parameters.
- The managed-object identity of an `Event` is its position in the context. The methods that take an `Event` object take that position.
- Fetch order: a fetch without a sort descriptor promises contents and multiplicities only, not order.
- Concurrency: `ContextManager.swift` (main/master context merging on dispatch queues), background queues in `fetchData`, and `NotificationCenter` posts are not part of this model.
- The `URLSession` data task of `doGet` is not modelled; its completion arguments are the inputs of `DoGetCompletion` and `FetchData`.
- JSON decoding (`JSONSerialization`) is the `decode` parameter. `LocalReplicator.readFile` (file reading) is not modelled; `LocalProcessData` takes the parse result.
- UUID generation is the `freshId` parameter: the id of round i.
- String interpolation of `AnyObject` values is a parameter: `show` in `printEventList`, `describe` for titles. Query values are taken as already interpolated strings.
- Dictionary iteration order: `AssignDetails` is proved for any key order; `QueryBuilder` takes its parameters as a sequence in iteration order.
- `saveEventsList` of the replicators and `EventAPI.swift` are not part of this model; the batch handed to `saveEventsList` is the result of the ingestion methods.
- The call to `eventAPI.deleteEvent` in the table's delete handler is not modelled; only the list state is.
- The `arc4random` choices in the generator are commented out in the source. `GenerateAttendees` generalises the live constant index to a sequence of picked positions.
- Logging and `print` calls, including the date log in the sorted retrieval, are not modelled.
- UI: view controllers, segues, cells, images and the search controller setup are not part of this model.
- `EventManager.printEventList` (EventManager.swift:244-268) is the same code as the current manager's and is modelled once, by `EventText.PrintEventList`.
- EventTable.Lower: case folding is ASCII lower-casing, not Unicode folding.
- EventTable.ContainsIgnoringCase: case folding is ASCII lower-casing, not Unicode folding, since it folds with `Lower`.
- EventTable.ContainsIgnoringCase: an empty search term matches nothing, as a `CONTAINS[c]` with an empty string does.
- PersistenceStore.PersistenceManager.UpdateAllEventAttendees requires that every event holds an attendee list, since taking the count of a missing list traps. The same holds for LegacyEventStore.EventManager.UpdateAllEventAttendees.
- RemoteProcessData, LocalProcessData and FetchData: the parse result is nil or an array of elements. A top-level JSON value that is not an array reaches `count` and subscripting on `AnyObject` in the source (RemoteReplicator.swift:87-89, LocalReplicator.swift:89-91), which trap or misbehave at run time. The model cannot represent that case.
- EventTable.EventTableViewController.DeleteRow: the table's row-count check is modelled as one comparison of the row count before and after. The exception that UIKit raises is the `Crashed` outcome.
- Value types: attribute values are strings, dates (seconds) or name lists; the Core Data type checking of `setValue(_:forKey:)` is not modelled.

## Findings

| source | as written | input that shows it | evidently intended | confidence | as-written member | corrected member |
|---|---|---|---|---|---|---|
| CoreDataCRUD/HTTPClient.swift:53-57 | with two or more parameters, "&" is appended after every pair, because `counter` never equals `params.count` inside the loop | parameters a=1, b=2 give "?a=1&b=2&" | "?a=1&b=2", with "&" only between pairs | not executed | HttpClient.QueryBuilder, HttpClient.TrailingAmpersand | HttpClient.QueryBuilderCorrected |
| CoreDataCRUD/EventManager.swift:81 | `saveNewItem` returns the negation of the save result | any field map with a successful save: the event is stored and the result is false | return the save result, as PersistenceManager.swift:52-61 does | not executed | LegacyEventStore.EventManager.SaveNewItem, LegacyEventStore.SaveNewItemResultsDiffer | PersistenceStore.PersistenceManager.SaveNewItem |
| CoreDataCRUD/EventTableViewController.swift:115-124 | deleting a row removes `eventList[row]` even while search is active, when the row indexes `filteredEventList`; the same wrong event is deleted from the store (:118), and the app then plausibly crashes at the table delete (:122), since the row count is unchanged | events "Concert" and "Festival", search "Festival", delete row 0: "Concert" is removed and "Festival" stays | remove the event shown in that row | not executed | EventTable.EventTableViewController.DeleteRow, EventTable.DeleteWhileSearchingRemovesOther | EventTable.EventTableViewController.DeleteShownRow |
