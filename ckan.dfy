/**
 * The CKAN client hook: the records of the CKAN action API, the assembly of
 * the `package_search` query parameters, and the decisions taken on the
 * responses of `package_search` and `package_show`. The HTTP round trip and
 * `response.json()` are outside the model: their results are parameters.
 */
module Ckan {
  import opened JsValues
  import opened JsText

  datatype CkanResource = CkanResource(
    id: string, name: string, description: string, format: string, url: string,
    size: Option<int>, created: string, lastModified: string)

  datatype Organization = Organization(name: string, title: string)

  datatype CkanGroup = CkanGroup(name: string, title: string)

  datatype CkanDataset = CkanDataset(
    id: string, name: string, title: string, notes: string,
    metadataCreated: string, metadataModified: string, author: string,
    organization: Option<Organization>, resources: seq<CkanResource>,
    tags: seq<string>, groups: seq<CkanGroup>)

  /** The optional fields of a search request; every one may be absent. */
  datatype CkanSearchParams = CkanSearchParams(
    q: Option<string>, fq: Option<string>, rows: Option<int>, start: Option<int>, sort: Option<string>)

  const DefaultCkanUrl: string := "https://demo.ckan.org"
  const DefaultRows: int := 10

  /** `ckanUrl || 'https://demo.ckan.org'`. */
  function BaseUrl(ckanUrl: Option<string>): (r: string)
    ensures r != ""
    ensures ckanUrl.Some? && ckanUrl.value != "" ==> r == ckanUrl.value
    ensures ckanUrl.None? || ckanUrl.value == "" ==> r == DefaultCkanUrl
  {
    if ckanUrl.Some? && ckanUrl.value != "" then ckanUrl.value else DefaultCkanUrl
  }

  // ---------------------------------------------------------------------------
  // package_search parameters

  /** A text parameter is sent when it is present and truthy, that is non-empty. */
  predicate IsSetText(v: Option<string>)
  {
    v.Some? && v.value != ""
  }

  /** `params.rows || 10`: an absent or zero page size becomes 10. */
  function RowsValue(params: CkanSearchParams): (n: int)
    ensures params.rows.Some? && params.rows.value != 0 ==> n == params.rows.value
    ensures params.rows.None? || params.rows.value == 0 ==> n == DefaultRows
  {
    if params.rows.Some? && params.rows.value != 0 then params.rows.value else DefaultRows
  }

  /** `params.start || 0`: an absent offset becomes 0. */
  function StartValue(params: CkanSearchParams): (n: int)
    ensures params.start.Some? ==> n == params.start.value
    ensures params.start.None? ==> n == 0
  {
    if params.start.Some? then params.start.value else 0
  }

  /** Position of a parameter name in the order the request sends them. */
  function Rank(key: string): (k: nat)
    ensures k <= 5
    ensures k < 5 <==> key in {"q", "fq", "rows", "start", "sort"}
  {
    if key == "q" then 0
    else if key == "fq" then 1
    else if key == "rows" then 2
    else if key == "start" then 3
    else if key == "sort" then 4
    else 5
  }

  /** The value of the first pair named `key`, as `URLSearchParams.get` reads it. */
  function Lookup(pairs: seq<(string, string)>, key: string): (r: Option<string>)
    ensures r.Some? <==> exists i :: 0 <= i < |pairs| && pairs[i].0 == key
  {
    if |pairs| == 0 then None
    else if pairs[0].0 == key then Some(pairs[0].1)
    else Lookup(pairs[1..], key)
  }

  /** Appending a pair leaves every existing lookup alone and answers a new key with its value. */
  lemma {:induction false} LookupAppend(pairs: seq<(string, string)>, k: string, v: string, key: string)
    ensures Lookup(pairs + [(k, v)], key)
         == if Lookup(pairs, key).Some? then Lookup(pairs, key)
            else if k == key then Some(v) else None
  {
    if |pairs| == 0 {
      assert pairs + [(k, v)] == [(k, v)];
    } else {
      assert (pairs + [(k, v)])[0] == pairs[0];
      assert (pairs + [(k, v)])[1..] == pairs[1..] + [(k, v)];
      LookupAppend(pairs[1..], k, v, key);
    }
  }

  predicate RanksIncrease(pairs: seq<(string, string)>)
  {
    forall i, j :: 0 <= i < j < |pairs| ==> Rank(pairs[i].0) < Rank(pairs[j].0)
  }

  /** Appending a pair of higher rank than every existing one keeps the order. */
  lemma RanksIncreaseAppend(pairs: seq<(string, string)>, k: string, v: string)
    requires RanksIncrease(pairs)
    requires forall i :: 0 <= i < |pairs| ==> Rank(pairs[i].0) < Rank(k)
    ensures RanksIncrease(pairs + [(k, v)])
  {
  }

  /**
   * `searchDatasets`' `URLSearchParams`: `q`, `fq` and `sort` only when set,
   * `rows` and `start` always, in the order q, fq, rows, start, sort. Every
   * name appears at most once, and each value is the one the request sends.
   */
  method SearchParams(params: CkanSearchParams) returns (pairs: seq<(string, string)>)
    ensures RanksIncrease(pairs)
    ensures forall i :: 0 <= i < |pairs| ==> Rank(pairs[i].0) < 5
    ensures Lookup(pairs, "q") == if IsSetText(params.q) then params.q else None
    ensures Lookup(pairs, "fq") == if IsSetText(params.fq) then params.fq else None
    ensures Lookup(pairs, "rows") == Some(IntString(RowsValue(params)))
    ensures Lookup(pairs, "start") == Some(IntString(StartValue(params)))
    ensures Lookup(pairs, "sort") == if IsSetText(params.sort) then params.sort else None
  {
    var rows := IntString(RowsValue(params));
    var start := IntString(StartValue(params));
    pairs := [];
    if IsSetText(params.q) {
      pairs := Append(pairs, "q", params.q.value);
    }
    if IsSetText(params.fq) {
      pairs := Append(pairs, "fq", params.fq.value);
    }
    pairs := Append(pairs, "rows", rows);
    pairs := Append(pairs, "start", start);
    if IsSetText(params.sort) {
      pairs := Append(pairs, "sort", params.sort.value);
    }
  }

  /**
   * `searchParams.append(k, v)` for a name ranked after every name already
   * present: the order is kept, the new name reads `v` and the others read
   * what they read before.
   */
  method Append(pairs: seq<(string, string)>, k: string, v: string) returns (r: seq<(string, string)>)
    requires RanksIncrease(pairs)
    requires Rank(k) < 5
    requires forall i :: 0 <= i < |pairs| ==> Rank(pairs[i].0) < Rank(k)
    ensures r == pairs + [(k, v)]
    ensures RanksIncrease(r)
    ensures forall i :: 0 <= i < |r| ==> Rank(r[i].0) <= Rank(k)
    ensures Lookup(r, "q") == if k == "q" then Some(v) else Lookup(pairs, "q")
    ensures Lookup(r, "fq") == if k == "fq" then Some(v) else Lookup(pairs, "fq")
    ensures Lookup(r, "rows") == if k == "rows" then Some(v) else Lookup(pairs, "rows")
    ensures Lookup(r, "start") == if k == "start" then Some(v) else Lookup(pairs, "start")
    ensures Lookup(r, "sort") == if k == "sort" then Some(v) else Lookup(pairs, "sort")
  {
    r := pairs + [(k, v)];
    RanksIncreaseAppend(pairs, k, v);
    LookupAppend(pairs, k, v, "q");
    LookupAppend(pairs, k, v, "fq");
    LookupAppend(pairs, k, v, "rows");
    LookupAppend(pairs, k, v, "start");
    LookupAppend(pairs, k, v, "sort");
  }

  // ---------------------------------------------------------------------------
  // Responses

  /**
   * What the request gives the hook: `Threw` when `fetch` rejects or
   * `response.json()` fails, otherwise the part of the response the hook
   * reads, with the body already decoded.
   */
  datatype ApiResponse = Threw | ApiResponse(ok: bool, statusText: string, data: JsValue)

  /**
   * How a call ends. `Rejected(reason)` is an `Error` the hook throws, where
   * `reason` is the value handed to the `Error` constructor; `AccessFailed`
   * is a TypeError from reading a property of `null` or `undefined`, and
   * `RequestFailed` the exception of a rejected `fetch` or a failed
   * `response.json()`; the engine chooses the message of those two. All three
   * are caught and reported.
   */
  datatype CallOutcome = Succeeded(result: JsValue) | Rejected(reason: JsValue) | AccessFailed | RequestFailed

  const ApiErrorFallback: string := "CKAN API returned an error"

  /** The `error.message` of a body, when the body carries one that is truthy. */
  predicate HasErrorMessage(data: JsValue)
  {
    && data.Obj? && "error" in data.fields
    && data.fields["error"].Obj? && "message" in data.fields["error"].fields
    && Truthy(data.fields["error"].fields["message"])
  }

  /** `data.error?.message || 'CKAN API returned an error'`. */
  function ErrorReason(data: JsValue): (r: JsValue)
    requires !data.Undefined? && !data.Null?
    ensures Truthy(r)
    ensures HasErrorMessage(data) ==> r == data.fields["error"].fields["message"]
    ensures !HasErrorMessage(data) ==> r == Str(ApiErrorFallback)
  {
    var err := GetProperty(data, "error");
    var message :=
      if err.v.Undefined? || err.v.Null? then Undefined
      else GetProperty(err.v, "message").v;
    if Truthy(message) then message else Str(ApiErrorFallback)
  }

  /** The shared response checks of `searchDatasets` and `getDataset`. */
  function CheckResponse(response: ApiResponse): (r: CallOutcome)
    ensures r.RequestFailed? <==> response.Threw?
    ensures response.ApiResponse? && !response.ok ==> r == Rejected(Str("CKAN API error: " + response.statusText))
    ensures response.ApiResponse? && response.ok && (response.data.Undefined? || response.data.Null?) ==>
      r.AccessFailed?
    ensures r.Succeeded? <==>
      response.ApiResponse? && response.ok && response.data.Obj? && "success" in response.data.fields
      && Truthy(response.data.fields["success"])
    ensures r.Succeeded? ==> r.result == GetProperty(response.data, "result").v
    ensures r.Rejected? && response.ok ==> r.reason == ErrorReason(response.data)
  {
    if response.Threw? then RequestFailed
    else if !response.ok then Rejected(Str("CKAN API error: " + response.statusText))
    else
      match GetProperty(response.data, "success")
      case TypeError => AccessFailed
      case Value(success) =>
        if !Truthy(success) then Rejected(ErrorReason(response.data))
        else Succeeded(GetProperty(response.data, "result").v)
  }

  /** The state `searchDatasets` leaves behind: the list, the total and the error banner. */
  datatype SearchState = SearchState(datasets: JsValue, totalCount: JsValue, failed: bool)

  /**
   * `searchDatasets` after the request: on success the list and total become
   * `result.results` and `result.count`; on any failure they keep their old
   * values and the error is set.
   */
  function AfterSearch(old_state: SearchState, response: ApiResponse): (r: SearchState)
    ensures r.failed <==> !CheckResponse(response).Succeeded?
                          || GetProperty(CheckResponse(response).result, "results").TypeError?
    ensures response.Threw? ==> r.failed
    ensures r.failed ==> r.datasets == old_state.datasets && r.totalCount == old_state.totalCount
    ensures !r.failed ==>
      var res := CheckResponse(response).result;
      r.datasets == GetProperty(res, "results").v && r.totalCount == GetProperty(res, "count").v
  {
    match CheckResponse(response)
    case Succeeded(res) =>
      (match GetProperty(res, "results")
       case TypeError => SearchState(old_state.datasets, old_state.totalCount, true)
       case Value(results) => SearchState(results, GetProperty(res, "count").v, false))
    case _ => SearchState(old_state.datasets, old_state.totalCount, true)
  }

  /** `getDataset`: `data.result` on success, `null` on any failure. */
  function GetDataset(response: ApiResponse): (r: Option<JsValue>)
    ensures r.None? <==> !CheckResponse(response).Succeeded?
    ensures r.Some? ==> r.value == GetProperty(response.data, "result").v
    ensures response.Threw? || !response.ok ==> r.None?
  {
    match CheckResponse(response)
    case Succeeded(res) => Some(res)
    case _ => None
  }

  /** The `package_show` request path for a dataset id. */
  /** The CKAN action path `getDatasetById` requests, with the id appended as a query parameter. */
  const PackageShowPath: string := "/api/3/action/package_show?id="

  function DatasetUrl(baseUrl: string, id: string): (r: string)
    ensures |r| == |baseUrl| + |PackageShowPath| + |id|
    ensures r[..|baseUrl|] == baseUrl
    ensures r[|baseUrl|..|baseUrl| + |PackageShowPath|] == PackageShowPath
    ensures r[|r| - |id|..] == id
  {
    baseUrl + PackageShowPath + id
  }

  /** `resource.name || \`resource_${resource.id}\``: the suggested download file name. */
  function DownloadName(resource: CkanResource): (r: string)
    ensures resource.name != "" ==> r == resource.name
    ensures resource.name == "" ==> r == "resource_" + resource.id
    ensures r != ""
  {
    if resource.name != "" then resource.name else "resource_" + resource.id
  }
}
