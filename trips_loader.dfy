/** The admin trips page loader: page number to offset, the race against a timer, and the
    mapping of stored documents to view records. */
module TripsLoader {
  import opened Js
  import Trips
  import Utils

  const PageSize := 8
  const TimeoutMessage: string := "Request timeout after 50s"

  /** Who settles first in the race between getAllTrips and the 50-second timer. */
  datatype Race = TimerWon | DataWon(page: Trips.TripsPage)

  /** The loader's data. `error` is null (None) on success. */
  datatype LoaderData = LoaderData(trips: seq<map<string, Json>>, total: int, error: Option<string>)

  /** `parseInt(page || "1")` with the parameter already parsed: a missing page is page 1. */
  function PageNumber(page: Option<int>): int {
    page.GetOr(1)
  }

  /** offset = (page - 1) * limit with limit 8: a multiple of the page size from which the
      page number can be read back; the first page (and a missing parameter) starts at 0. */
  function Offset(page: Option<int>): (offset: int)
    ensures offset % PageSize == 0
    ensures offset / PageSize + 1 == PageNumber(page)
    ensures page.None? ==> offset == 0
  {
    (PageNumber(page) - 1) * PageSize
  }

  /** The decimal form of an array index, the property key object spread gives it. */
  function IndexKey(n: nat): string
    decreases n
  {
    if n < 10 then [(48 + n) as char] else IndexKey(n / 10) + [(48 + n % 10) as char]
  }

  /** The properties object spread copies out of an array: each element under its index. */
  function ElementFields(items: seq<Json>): map<string, Json>
    decreases |items|
  {
    if items == [] then map[]
    else ElementFields(items[..|items| - 1])[IndexKey(|items| - 1) := items[|items| - 1]]
  }

  /** The properties `...v` copies: an object's fields, the elements of an array or the
      characters of a string under their indices, nothing for null, booleans and numbers. */
  function SpreadFields(v: Json): map<string, Json> {
    match v
    case JObj(fields) => fields
    case JArr(items) => ElementFields(items)
    case JStr(s) => ElementFields(seq(|s|, i requires 0 <= i < |s| => JStr([s[i]])))
    case _ => map[]
  }

  /** `imageUrls ?? []`. */
  function ImageUrlsOrEmpty(imageUrls: Json): Json {
    if imageUrls == JNull then JArr([]) else imageUrls
  }

  /** `{id: $id, ...parseTripData(tripDetail), imageUrls: imageUrls ?? []}`: later
      properties override earlier ones, so the spread detail overrides `id` when it has one
      and `imageUrls` always comes from the document. */
  function ToRecord(doc: Trips.TripDocument, parse: string -> Option<Json>): (rec: map<string, Json>)
    ensures var detail := SpreadFields(Utils.ParseTripData(doc.tripDetail, parse));
            && rec.Keys == {"id", "imageUrls"} + detail.Keys
            && rec["imageUrls"] == ImageUrlsOrEmpty(doc.imageUrls)
            && rec["id"] == (if "id" in detail then detail["id"] else JStr(doc.id))
            && forall k :: k in detail && k != "imageUrls" ==> rec[k] == detail[k]
    ensures parse(doc.tripDetail).None? ==>
              rec == map["id" := JStr(doc.id), "imageUrls" := ImageUrlsOrEmpty(doc.imageUrls)]
  {
    var detail := SpreadFields(Utils.ParseTripData(doc.tripDetail, parse));
    map["id" := JStr(doc.id)] + detail + map["imageUrls" := ImageUrlsOrEmpty(doc.imageUrls)]
  }

  /** The records of a page, one per document, in order. */
  function Records(docs: seq<Trips.TripDocument>, parse: string -> Option<Json>): (recs: seq<map<string, Json>>)
    ensures |recs| == |docs|
    ensures forall i :: 0 <= i < |docs| ==> recs[i] == ToRecord(docs[i], parse)
  {
    if docs == [] then [] else [ToRecord(docs[0], parse)] + Records(docs[1..], parse)
  }

  /** The loader. `fetch(limit, offset)` is the outcome of racing getAllTrips(limit, offset)
      against the timer. A won timer gives an empty result carrying the timeout message;
      otherwise one record per document, the total passed through, and no error. */
  function Loader(page: Option<int>, fetch: (int, int) -> Race, parse: string -> Option<Json>): (d: LoaderData)
    ensures fetch(PageSize, Offset(page)).TimerWon? ==> d == LoaderData([], 0, Some(TimeoutMessage))
    ensures fetch(PageSize, Offset(page)).DataWon? ==>
              var p := fetch(PageSize, Offset(page)).page;
              && |d.trips| == |p.allTrips|
              && (forall i :: 0 <= i < |p.allTrips| ==> d.trips[i] == ToRecord(p.allTrips[i], parse))
              && d.total == p.total
              && d.error == None
  {
    match fetch(PageSize, Offset(page))
    case TimerWon => LoaderData([], 0, Some(TimeoutMessage))
    case DataWon(p) => LoaderData(Records(p.allTrips, parse), p.total, None)
  }
}
