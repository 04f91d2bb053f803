/** The trip-creation endpoint: API-key gate, one model call, JSON and structure gates,
    best-effort image enrichment, then a single document write. The services are given as
    their outcomes; the action records the calls it makes as a trace of effects. */
module CreateTrip {
  import opened Js
  import opened Sequences

  /** The fields of the request body. */
  datatype TripRequest = TripRequest(
    country: string,
    numberOfDays: int,
    travelStyle: string,
    interests: string,
    budget: string,
    groupType: string,
    userId: string)

  /** The two environment keys; an empty string is an unset (falsy) key. */
  datatype Config = Config(geminiApiKey: string, unsplashAccessKey: string)

  /** What `generateContent` followed by `response.text()` gives: the raw text, or a throw. */
  datatype Generation = GenerationThrew(thrown: Thrown) | GeneratedText(text: string)

  /** How the Unsplash request ends: an `error` event, a `timeout` event, or the end of a
      response with its status code and accumulated body. */
  datatype ImageSearch = RequestError(thrown: Thrown) | RequestTimeout | ResponseEnded(status: int, body: string)

  /** What `createDocument` gives: the new document's `$id`, or a throw. */
  datatype Persist = CreateThrew(thrown: Thrown) | Created(id: string)

  /** The fields written by `createDocument`. */
  datatype NewTripFields = NewTripFields(tripDetail: string, createdAt: string, imageUrls: seq<Json>, userId: string)

  /** The outward calls of the action, in the order made. */
  datatype Effect =
    | GenerateContent
    | SearchImages(query: string, perPage: int)
    | CreateDocument(fields: NewTripFields)

  /** The outcome of the action: `data({id})`, or a thrown 500 Response, either with the
      plain text of the configuration error or with the JSON body `{error, details}`. */
  datatype Response =
    | Data(id: string)
    | ThrownText(status: int, text: string)
    | ThrownJson(status: int, error: string, details: string)

  const ConfigErrorText: string := "Server configuration error"
  const InvalidJsonMessage: string := "Invalid JSON response from AI"
  const IncompleteMessage: string := "AI returned incomplete trip data"
  const FallbackMessage: string := "Failed to generate trip"
  const Details: string := "Please check your API keys and try again"
  const ImagesPerQuery := 3

  /** The 500 response that the outer catch makes of a thrown value. */
  function Failure(e: Thrown): Response {
    ThrownJson(500, MessageOr(e, FallbackMessage), Details)
  }

  /** The structure gate: `tripData && typeof tripData === 'object' && tripData.name && tripData.itinerary`. */
  predicate IsCompleteTrip(tripData: Json) {
    Truthy(tripData) && IsObjectType(tripData) && TruthyProp(tripData, "name") && TruthyProp(tripData, "itinerary")
  }

  /** The gate accepts exactly objects whose `name` and `itinerary` are present and truthy:
      an empty name is rejected, an empty itinerary array is accepted. */
  lemma CompleteTripIff(tripData: Json)
    ensures IsCompleteTrip(tripData) <==>
              tripData.JObj? && "name" in tripData.fields && "itinerary" in tripData.fields
              && Truthy(tripData.fields["name"]) && Truthy(tripData.fields["itinerary"])
    ensures tripData.JObj? && "name" in tripData.fields && tripData.fields["name"] == JStr("") ==>
              !IsCompleteTrip(tripData)
    ensures tripData.JObj? && "itinerary" in tripData.fields && tripData.fields["itinerary"] == JArr([])
              && "name" in tripData.fields && Truthy(tripData.fields["name"]) ==>
              IsCompleteTrip(tripData)
  {
  }

  /** The Unsplash search query. */
  function SearchQuery(req: TripRequest): string {
    req.country + " " + req.interests + " " + req.travelStyle
  }

  /** `result.urls?.regular` for a result that is not null. */
  function RegularUrl(result: Json): Option<Json> {
    match Prop(result, "urls")
    case None => None
    case Some(urls) => if urls == JNull then None else Prop(urls, "regular")
  }

  /** The mapped values of `results.map(r => r.urls?.regular)`, with undefined as JNull. */
  function Projected(results: seq<Json>): seq<Json> {
    seq(|results|, i requires 0 <= i < |results| => RegularUrl(results[i]).GetOr(JNull))
  }

  function CountTruthy(s: seq<Json>): nat {
    if s == [] then 0 else (if Truthy(s[0]) then 1 else 0) + CountTruthy(s[1..])
  }

  /** `.map(r => r.urls?.regular).filter(url => url)` over the given results; None when a
      null result makes `r.urls` throw. The kept values are the truthy mapped values, in order. */
  function RegularUrls(results: seq<Json>): (urls: Option<seq<Json>>)
    ensures urls.None? <==> JNull in results
    ensures urls.Some? ==> IsSubsequence(urls.value, Projected(results))
    ensures urls.Some? ==> |urls.value| == CountTruthy(Projected(results))
    ensures urls.Some? ==> forall u :: u in urls.value ==> Truthy(u)
  {
    if results == [] then Some([])
    else if results[0] == JNull then None
    else
      var rest := RegularUrls(results[1..]);
      assert Projected(results) == [RegularUrl(results[0]).GetOr(JNull)] + Projected(results[1..]);
      match rest
      case None => None
      case Some(tail) =>
        var u := RegularUrl(results[0]);
        if u.Some? && Truthy(u.value) then Some([u.value] + tail) else Some(tail)
  }

  /** What `imageData.results.slice(0, 3).map(...).filter(...)` assigns, if it completes:
      only a non-empty `results` array gets this far without throwing. */
  function SelectImageUrls(imageData: Json): (urls: seq<Json>)
    ensures |urls| <= ImagesPerQuery
    ensures forall u :: u in urls ==> Truthy(u)
    // without a non-empty `results` array nothing is selected
    ensures !HasResults(imageData) ==> urls == []
    // with one: exactly the truthy URLs of the first three results, in order, unless a null
    // result among them makes the projection throw
    ensures HasResults(imageData) ==>
              var first := FirstResults(imageData);
              && (JNull in first ==> urls == [])
              && (JNull !in first ==>
                    IsSubsequence(urls, Projected(first)) && |urls| == CountTruthy(Projected(first)))
  {
    match Prop(imageData, "results")
    case Some(JArr(items)) =>
      if |items| > 0 then
        var first := items[..Min(3, |items|)];
        var r := RegularUrls(first);
        SubsequenceLength(r.GetOr([]), Projected(first));
        r.GetOr([])
      else []
    case _ => []
  }

  function Min(a: int, b: int): int {
    if a < b then a else b
  }

  /** `imageData.results && imageData.results.length > 0`, for a `results` that is an array. */
  predicate HasResults(imageData: Json) {
    match Prop(imageData, "results")
    case Some(JArr(items)) => |items| > 0
    case _ => false
  }

  /** `imageData.results.slice(0, 3)`. */
  function FirstResults(imageData: Json): seq<Json>
    requires HasResults(imageData)
  {
    var items := Prop(imageData, "results").value.items;
    items[..Min(3, |items|)]
  }

  /** The enrichment step: the image URLs of the trip, [] without a key, on a request error,
      a timeout, a non-200 status or an unparseable body. It never fails the action. */
  function ImageUrls(unsplashAccessKey: string, search: ImageSearch, parse: string -> Option<Json>): (urls: seq<Json>)
    ensures unsplashAccessKey == "" ==> urls == []
    ensures search.RequestError? || search.RequestTimeout? ==> urls == []
    ensures search.ResponseEnded? && search.status != 200 ==> urls == []
    ensures search.ResponseEnded? && parse(search.body).None? ==> urls == []
    ensures search.ResponseEnded? && search.status == 200 && parse(search.body).Some? && unsplashAccessKey != "" ==>
              urls == SelectImageUrls(parse(search.body).value)
    ensures |urls| <= ImagesPerQuery && forall u :: u in urls ==> Truthy(u)
  {
    if unsplashAccessKey == "" then []
    else
      match search
      case RequestError(_) => []
      case RequestTimeout => []
      case ResponseEnded(status, body) =>
        if status != 200 then []
        else
          match parse(body)
          case None => []
          case Some(imageData) => SelectImageUrls(imageData)
  }

  function WriteCount(trace: seq<Effect>): nat {
    if trace == [] then 0
    else WriteCount(trace[..|trace| - 1]) + (if trace[|trace| - 1].CreateDocument? then 1 else 0)
  }

  /** The traces the action can leave hold one write exactly when they end with it. */
  lemma PrefixWriteCounts()
    ensures WriteCount([]) == 0 && WriteCount([GenerateContent]) == 0
    ensures forall q, p, f :: WriteCount([GenerateContent] + [SearchImages(q, p)] + [CreateDocument(f)]) == 1
    ensures forall f :: WriteCount([GenerateContent] + [CreateDocument(f)]) == 1
  {
    assert [GenerateContent][..0] == [];
    forall q, p, f ensures WriteCount([GenerateContent] + [SearchImages(q, p)] + [CreateDocument(f)]) == 1 {
      var t := [GenerateContent] + [SearchImages(q, p)] + [CreateDocument(f)];
      var u := [GenerateContent, SearchImages(q, p)];
      assert t[..2] == u;
      assert u[..1] == [GenerateContent];
      assert WriteCount(u) == 0;
    }
    forall f ensures WriteCount([GenerateContent] + [CreateDocument(f)]) == 1 {
      var t := [GenerateContent] + [CreateDocument(f)];
      assert t[..1] == [GenerateContent];
    }
  }

  /** The gates before the write all pass: key set, text generated, parsed, complete. */
  predicate ReachesPersist(config: Config, generation: Generation, parse: string -> Option<Json>) {
    config.geminiApiKey != "" && generation.GeneratedText?
    && parse(generation.text).Some? && IsCompleteTrip(parse(generation.text).value)
  }

  /** The action. `now` is the ISO timestamp of `new Date()`; `parse` and `stringify` are
      JSON.parse and JSON.stringify. */
  method Action(req: TripRequest, config: Config, generation: Generation, imageSearch: ImageSearch,
                persist: Persist, now: string, parse: string -> Option<Json>, stringify: Json -> string)
    returns (response: Response, trace: seq<Effect>)
    // the key gate comes before everything else
    ensures config.geminiApiKey == "" ==> response == ThrownText(500, ConfigErrorText) && trace == []
    ensures config.geminiApiKey != "" ==> |trace| >= 1 && trace[0] == GenerateContent
    // the gates before the write
    ensures config.geminiApiKey != "" && generation.GenerationThrew? ==>
              response == Failure(generation.thrown) && trace == [GenerateContent]
    ensures config.geminiApiKey != "" && generation.GeneratedText? && parse(generation.text).None? ==>
              response == ThrownJson(500, InvalidJsonMessage, Details) && trace == [GenerateContent]
    ensures config.geminiApiKey != "" && generation.GeneratedText? && parse(generation.text).Some?
              && !IsCompleteTrip(parse(generation.text).value) ==>
              response == ThrownJson(500, IncompleteMessage, Details) && trace == [GenerateContent]
    // at most one write, made exactly when every gate passed, as the last effect
    ensures WriteCount(trace) <= 1
    ensures WriteCount(trace) == 1 <==> ReachesPersist(config, generation, parse)
    ensures ReachesPersist(config, generation, parse) ==>
              var tripData := parse(generation.text).value;
              var imageUrls := ImageUrls(config.unsplashAccessKey, imageSearch, parse);
              trace[|trace| - 1] == CreateDocument(NewTripFields(stringify(tripData), now, imageUrls, req.userId))
              && trace == [GenerateContent]
                          + (if config.unsplashAccessKey != "" then [SearchImages(SearchQuery(req), ImagesPerQuery)] else [])
                          + [trace[|trace| - 1]]
    // the result of the write
    ensures response.Data? <==> ReachesPersist(config, generation, parse) && persist.Created?
    ensures response.Data? ==> response.id == persist.id
    ensures ReachesPersist(config, generation, parse) && persist.CreateThrew? ==> response == Failure(persist.thrown)
  {
    if config.geminiApiKey == "" {
      response, trace := ThrownText(500, ConfigErrorText), [];
      return;
    }
    PrefixWriteCounts();
    trace := [GenerateContent];
    var rawText: string;
    match generation
    case GenerationThrew(e) =>
      response := Failure(e);
      return;
    case GeneratedText(t) =>
      rawText := t;
    var parsed := parse(rawText);
    if parsed.None? {
      response := Failure(ErrorObject(InvalidJsonMessage));
      return;
    }
    var tripData := parsed.value;
    if !IsCompleteTrip(tripData) {
      response := Failure(ErrorObject(IncompleteMessage));
      return;
    }
    var imageUrls: seq<Json> := [];
    var searches: seq<Effect> := [];
    if config.unsplashAccessKey != "" {
      searches := [SearchImages(SearchQuery(req), ImagesPerQuery)];
      imageUrls := ImageUrls(config.unsplashAccessKey, imageSearch, parse);
    }
    var fields := NewTripFields(stringify(tripData), now, imageUrls, req.userId);
    trace := [GenerateContent] + searches + [CreateDocument(fields)];
    match persist
    case CreateThrew(e) =>
      response := Failure(e);
    case Created(id) =>
      response := Data(id);
  }
}
