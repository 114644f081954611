/** The HTTP client helpers: the URL query string builder, the lookup of a
    response code in the status table, and the completion handler of a GET. */
module HttpClient {
  import opened Wrappers
  import opened HttpStatus
  import HttpStatusOrder

  /** One `key=value` component; both sides are already the interpolated text. */
  function Pair(p: (string, string)): string
  {
    p.0 + "=" + p.1
  }

  /** The components joined by "&" (the query of section 3.4 of RFC 3986). */
  function JoinPairs(params: seq<(string, string)>): string
    decreases |params|
  {
    if params == [] then ""
    else if |params| == 1 then Pair(params[0])
    else JoinPairs(params[..|params| - 1]) + "&" + Pair(params[|params| - 1])
  }

  /** Every component followed by "&". */
  function EachFollowedByAmpersand(params: seq<(string, string)>): string
    decreases |params|
  {
    if params == [] then "" else EachFollowedByAmpersand(params[..|params| - 1]) + Pair(params[|params| - 1]) + "&"
  }

  /** Following every component by "&" is joining them and adding one "&" at the end. */
  lemma {:induction false} EachFollowedIsJoinedPlusOne(params: seq<(string, string)>)
    requires params != []
    ensures EachFollowedByAmpersand(params) == JoinPairs(params) + "&"
    decreases |params|
  {
    if |params| > 1 {
      EachFollowedIsJoinedPlusOne(params[..|params| - 1]);
    }
  }

  /** queryBuilder as written: "?" and the components in iteration order; with
      two or more, every component is followed by "&", the last one included,
      because the counter never reaches the number of parameters in the loop. */
  method QueryBuilder(params: seq<(string, string)>) returns (queryString: string)
    ensures queryString == "?" + JoinPairs(params) + (if |params| > 1 then "&" else "")
  {
    queryString := "?";
    var counter := 0;
    for k := 0 to |params|
      invariant counter == k
      invariant queryString == "?" + (if |params| > 1 then EachFollowedByAmpersand(params[..k]) else JoinPairs(params[..k]))
    {
      var (key, value) := params[k];
      PairsStep(params, k);
      ghost var done := if |params| > 1 then EachFollowedByAmpersand(params[..k]) else JoinPairs(params[..k]);
      assert key + "=" + value == Pair(params[k]);
      ConcatAssoc("?", done, Pair(params[k]));
      queryString := queryString + (key + "=" + value);
      if |params| > 1 && counter != |params| {
        ConcatAssoc("?", done + Pair(params[k]), "&");
        queryString := queryString + "&";
      }
      counter := counter + 1;
    }
    assert params[..|params|] == params;
    if |params| > 1 {
      EachFollowedIsJoinedPlusOne(params);
    }
  }

  /** Taking one more parameter adds its component to either rendering. */
  lemma PairsStep(params: seq<(string, string)>, k: nat)
    requires k < |params|
    ensures JoinPairs(params[..k + 1]) == JoinPairs(params[..k]) + (if k > 0 then "&" else "") + Pair(params[k])
    ensures EachFollowedByAmpersand(params[..k + 1]) == EachFollowedByAmpersand(params[..k]) + Pair(params[k]) + "&"
  {
    assert params[..k + 1][..k] == params[..k];
  }

  /** queryBuilder as evidently intended: "&" only between components. */
  method QueryBuilderCorrected(params: seq<(string, string)>) returns (queryString: string)
    ensures queryString == "?" + JoinPairs(params)
  {
    queryString := "?";
    var counter := 0;
    for k := 0 to |params|
      invariant counter == k
      invariant queryString == "?" + JoinPairs(params[..k]) + (if 0 < k < |params| then "&" else "")
    {
      var (key, value) := params[k];
      PairsStep(params, k);
      ghost var done := JoinPairs(params[..k]) + (if 0 < k then "&" else "");
      assert key + "=" + value == Pair(params[k]);
      ConcatAssoc("?", done, Pair(params[k]));
      queryString := queryString + (key + "=" + value);
      if |params| > 1 && counter != |params| - 1 {
        ConcatAssoc("?", done + Pair(params[k]), "&");
        queryString := queryString + "&";
      }
      counter := counter + 1;
    }
    assert params[..|params|] == params;
  }

  /** Two parameters: the query as written ends in "&", the intended one does not. */
  method TrailingAmpersand() returns (asWritten: string, intended: string)
    ensures asWritten == "?a=1&b=2&" && intended == "?a=1&b=2"
  {
    var params := [("a", "1"), ("b", "2")];
    assert params[..1] == [("a", "1")];
    asWritten := QueryBuilder(params);
    intended := QueryBuilderCorrected(params);
  }

  /** getHTTPStatusCode: scans the whole table, keeping the last entry whose raw
      value is the response code; returning the unset result traps. */
  method GetHTTPStatusCode(statusCode: int) returns (r: Completion<StatusCode>)
    ensures r.Crashed? <==> forall s: StatusCode :: RawValue(s) != statusCode
    ensures r.Finished? ==> RawValue(r.value) == statusCode
  {
    var httpStatusCode: Option<StatusCode> := None;
    for k := 0 to |GetAll|
      invariant httpStatusCode.Some? ==> RawValue(httpStatusCode.value) == statusCode
      invariant httpStatusCode.None? ==> forall m :: 0 <= m < k ==> RawValue(GetAll[m]) != statusCode
    {
      var status := GetAll[k];
      if statusCode == RawValue(status) {
        httpStatusCode := Some(status);
      }
    }
    if httpStatusCode.None? {
      HttpStatusOrder.GetAllListsEveryCaseOnce();
      forall s: StatusCode ensures RawValue(s) != statusCode {
        assert GetAll[IndexOf(s)] == s;
      }
      return Crashed;
    }
    r := Finished(httpStatusCode.value);
  }

  type Data = seq<bv8>

  datatype NSError = NSError(domain: string, code: int, localizedDescription: string)

  /** The response a data task completes with. */
  datatype URLResponse = HTTPURLResponse(statusCode: int) | NonHTTPResponse

  /** The arguments the GET callback is invoked with. */
  datatype CallbackArgs = CallbackArgs(data: Option<Data>, error: Option<NSError>, httpStatusCode: Option<StatusCode>)

  /** The error reported for a status other than 200. */
  function StatusError(status: StatusCode): (e: NSError)
    ensures e.domain == "com.io-pandacode.CoreDataCRUD" && e.code == RawValue(status)
  {
    NSError("com.io-pandacode.CoreDataCRUD", RawValue(status),
      "HTTP status code: " + Decimal(RawValue(status)) + " - " + CaseName(status))
  }

  /** The callback arguments for an HTTP response with status `code` and body
      `data`: the status itself, and the body when it is 200, else none and the
      status error. */
  predicate Delivers(args: CallbackArgs, code: int, data: Option<Data>)
  {
    && args.httpStatusCode.Some?
    && RawValue(args.httpStatusCode.value) == code
    && if code == 200 then args.data == data && args.error.None?
       else args.data.None? && args.error == Some(StatusError(args.httpStatusCode.value))
  }

  /** The completion handler of doGet: a transport error is passed on without a
      status; an HTTP response passes its data on only when its status is 200,
      and an error carrying the status otherwise; any other response invokes
      nothing. `Finished(None)` means the callback is not invoked. */
  method DoGetCompletion(data: Option<Data>, response: Option<URLResponse>, error: Option<NSError>)
    returns (r: Completion<Option<CallbackArgs>>)
    ensures error.Some? ==> r == Finished(Some(CallbackArgs(None, error, None)))
    ensures error.None? && (response.None? || response.value.NonHTTPResponse?) ==> r == Finished(None)
    ensures error.None? && response.Some? && response.value.HTTPURLResponse? ==>
              (r.Crashed? <==> forall s: StatusCode :: RawValue(s) != response.value.statusCode)
    ensures error.None? && response.Some? && response.value.HTTPURLResponse? && r.Finished? ==>
              r.value.Some? && Delivers(r.value.value, response.value.statusCode, data)
  {
    if error.Some? {
      return Finished(Some(CallbackArgs(None, error, None)));
    }
    if response.Some? && response.value.HTTPURLResponse? {
      var lookup := GetHTTPStatusCode(response.value.statusCode);
      if lookup.Crashed? {
        return Crashed;
      }
      var httpStatus := lookup.value;
      if RawValue(httpStatus) != 200 {
        var statusError := StatusError(httpStatus);
        r := Finished(Some(CallbackArgs(None, Some(statusError), Some(httpStatus))));
      } else {
        r := Finished(Some(CallbackArgs(data, None, Some(httpStatus))));
      }
    } else {
      r := Finished(None);
    }
  }
}
