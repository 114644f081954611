/** The ingestion step of the local and remote replicators: each parsed event
    field map is tagged with its origin, given a fresh id and a generated
    attendee list, and the batch is handed to the store. */
module Replicators {
  import opened Wrappers
  import opened EventModel
  import HttpStatus
  import opened HttpClient
  import Generator = Attendees

  /** A parsed JSON object: attribute name to value. */
  type FieldMap = map<string, Value>

  const LocalLabel: string := "[LOCAL] "
  const RemoteLabel: string := "[REMOTE] "

  /** One processed item: the title is the tag followed by the old title, the
      eventId is the fresh id, the attendees are the generated list; every other
      key keeps its value. */
  function Processed(tag: string, item: FieldMap, id: string, attendees: seq<string>, describe: Value -> string): (r: FieldMap)
    requires RawValue(Title) in item
    ensures r.Keys == item.Keys + {RawValue(Title), RawValue(EventId), RawValue(Attendees)}
    ensures r[RawValue(Title)] == Text(tag + describe(item[RawValue(Title)]))
    ensures r[RawValue(EventId)] == Text(id) && r[RawValue(Attendees)] == Names(attendees)
    ensures forall k :: k in item && k != RawValue(Title) && k != RawValue(EventId) && k != RawValue(Attendees) ==> r[k] == item[k]
  {
    item[RawValue(Title) := Text(tag + describe(item[RawValue(Title)]))]
        [RawValue(EventId) := Text(id)]
        [RawValue(Attendees) := Names(attendees)]
  }

  /** One element of a parsed JSON array: an object, read as a field map, or
      any other JSON value (a string, a number, an array, null). */
  datatype Element = Object(fields: FieldMap) | NonObject

  /** An element the loop body gets through: the forced cast to a dictionary
      succeeds and the title it unwraps is there. */
  predicate Processable(e: Element)
  {
    e.Object? && RawValue(Title) in e.fields
  }

  /** Some element of the parsed list is not an object, or has no title, so
      processing it traps. */
  ghost predicate SomeItemUnprocessable(eventList: seq<Element>)
  {
    exists i :: 0 <= i < |eventList| && !Processable(eventList[i])
  }

  /** `r` is the batch for `eventList`: an element that is not an object (forced
      cast) or has no title (forced unwrap) traps; otherwise one processed entry per item, in order, the i-th with the i-th
      generated id and the generator's list. */
  ghost predicate IsBatchFor(tag: string, eventList: seq<Element>, freshId: nat -> string, describe: Value -> string,
                              r: Completion<seq<FieldMap>>)
  {
    && (r.Crashed? <==> SomeItemUnprocessable(eventList))
    && (r.Finished? ==> |r.value| == |eventList|)
    && (r.Finished? ==> forall i :: 0 <= i < |r.value| ==>
          i < |eventList| && Processable(eventList[i])
          && r.value[i] == Processed(tag, eventList[i].fields, freshId(i), ["Yoda"], describe))
  }

  /** The loop both processData methods run over the parsed list. `freshId(i)`
      is the UUID generated in round i; `describe` is how a title value is
      interpolated. */
  method ProcessItems(tag: string, eventList: seq<Element>, freshId: nat -> string, describe: Value -> string)
    returns (r: Completion<seq<FieldMap>>)
    ensures IsBatchFor(tag, eventList, freshId, describe, r)
  {
    var retrievedEvents: seq<FieldMap> := [];
    for index := 0 to |eventList|
      invariant |retrievedEvents| == index
      invariant forall i :: 0 <= i < index ==> Processable(eventList[i])
      invariant forall i :: 0 <= i < index ==>
                  retrievedEvents[i] == Processed(tag, eventList[i].fields, freshId(i), ["Yoda"], describe)
    {
      if !eventList[index].Object? {
        return Crashed;
      }
      var eventItem := eventList[index].fields;
      if RawValue(Title) !in eventItem {
        return Crashed;
      }
      eventItem := eventItem[RawValue(Title) := Text(tag + describe(eventItem[RawValue(Title)]))];
      eventItem := eventItem[RawValue(EventId) := Text(freshId(index))];
      var attendees := Generator.GetSemiRandomGeneratedAttendeesList();
      eventItem := eventItem[RawValue(Attendees) := Names(attendees)];
      retrievedEvents := retrievedEvents + [eventItem];
    }
    r := Finished(retrievedEvents);
  }

  /** LocalReplicator.processData: a nil parse result still submits an empty batch. */
  method LocalProcessData(jsonResult: Option<seq<Element>>, freshId: nat -> string, describe: Value -> string)
    returns (batch: Completion<seq<FieldMap>>)
    ensures jsonResult.None? ==> batch == Finished([])
    ensures jsonResult.Some? ==> IsBatchFor(LocalLabel, jsonResult.value, freshId, describe, batch)
  {
    if jsonResult.Some? {
      batch := ProcessItems(LocalLabel, jsonResult.value, freshId, describe);
    } else {
      batch := Finished([]);
    }
  }

  /** RemoteReplicator.processData: decodes the payload (`decode` is the JSON
      parser); an undecodable payload submits an empty batch. */
  method RemoteProcessData(jsonResponse: Data, decode: Data -> Option<seq<Element>>, freshId: nat -> string,
                           describe: Value -> string)
    returns (batch: Completion<seq<FieldMap>>)
    ensures decode(jsonResponse).None? ==> batch == Finished([])
    ensures decode(jsonResponse).Some? ==> IsBatchFor(RemoteLabel, decode(jsonResponse).value, freshId, describe, batch)
  {
    var jsonResult := decode(jsonResponse);
    if jsonResult.Some? {
      batch := ProcessItems(RemoteLabel, jsonResult.value, freshId, describe);
    } else {
      batch := Finished([]);
    }
  }

  /** What one remote fetch leads to. */
  datatype FetchOutcome =
    | NoCallback                         // the response was not an HTTP response
    | LoggedOnly                         // a status other than 200 was logged
    | Submitted(batch: seq<FieldMap>)    // the processed batch went to the store

  /** RemoteReplicator.fetchData with the GET's completion arguments: data is
      processed only when the status is 200. The callback unwraps the status
      and, on 200, the data by force, so a transport error (no status) traps. */
  method FetchData(data: Option<Data>, response: Option<URLResponse>, error: Option<NSError>,
                   decode: Data -> Option<seq<Element>>, freshId: nat -> string, describe: Value -> string)
    returns (r: Completion<FetchOutcome>)
    ensures error.Some? ==> r.Crashed?
    ensures error.None? && (response.None? || response.value.NonHTTPResponse?) ==> r == Finished(NoCallback)
    ensures error.None? && response.Some? && response.value.HTTPURLResponse? && response.value.statusCode != 200 ==>
              r == if forall s: HttpStatus.StatusCode :: HttpStatus.RawValue(s) != response.value.statusCode then Crashed else Finished(LoggedOnly)
    ensures error.None? && response == Some(HTTPURLResponse(200)) ==>
              && (data.None? ==> r.Crashed?)
              && (data.Some? ==> (r.Crashed? <==> decode(data.value).Some? && SomeItemUnprocessable(decode(data.value).value)))
              && (r.Finished? ==> r.value.Submitted?)
    ensures r.Finished? && r.value.Submitted? ==>
              && error.None? && response == Some(HTTPURLResponse(200)) && data.Some?
              && (decode(data.value).None? ==> r.value.batch == [])
              && (decode(data.value).Some? ==> IsBatchFor(RemoteLabel, decode(data.value).value, freshId, describe, Finished(r.value.batch)))
  {
    assert HttpStatus.RawValue(HttpStatus.Ok) == 200;
    var callback := DoGetCompletion(data, response, error);
    if callback.Crashed? {
      return Crashed;
    }
    if callback.value.None? {
      return Finished(NoCallback);
    }
    var args := callback.value.value;
    if args.httpStatusCode.None? {
      return Crashed;
    }
    if HttpStatus.RawValue(args.httpStatusCode.value) != HttpStatus.RawValue(HttpStatus.Ok) {
      return Finished(LoggedOnly);
    }
    if args.data.None? {
      return Crashed;
    }
    var batch := RemoteProcessData(args.data.value, decode, freshId, describe);
    if batch.Crashed? {
      return Crashed;
    }
    r := Finished(Submitted(batch.value));
  }
}
