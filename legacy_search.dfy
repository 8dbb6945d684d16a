/** The older search path: the same page URL under a `bool` for new stock,
    a probe that asks for a full page, a plan with no guard against an
    empty range, and a best-effort fetch that keeps the vehicles of every
    page that answered and reports the pages that failed.

    As in `BmwSearch`, the HTTP exchange is a parameter: an `Upstream` maps
    the number of a request and the page it asks for to the decoded
    response or an error. Request 0 is the probe; the i-th chunk is
    request i + 1. */
module LegacySearch {
  import opened Prelude
  import opened Text
  import opened RangeStep
  import opened UrlQuery
  import opened Vehicles
  import Dto = SearchDto
  import BmwSearch
  import Config
  import opened Gathering

  const NewCarUrl: string := "https://stolo-data-service.prod.stolo.eu-central-1.aws.bmw.cloud/vehiclesearch/search/fr-fr/stocklocator"
  const UsedCarUrl: string := "https://stolo-data-service.prod.stolo.eu-central-1.aws.bmw.cloud/vehiclesearch/search/fr-fr/stocklocator_uc"
  const MaxResult: u32 := 50

  // ---------------------------------------------------------------------
  // Page URL
  // ---------------------------------------------------------------------

  function BuildSearchUrl(newCar: bool, maxResult: u32, startIndex: Option<u32>): string {
    var base := if newCar then NewCarUrl else UsedCarUrl;
    WithParams(base, [
      ("brand", "BMW"),
      ("maxResults", Decimal(if maxResult > MaxResult then MaxResult else maxResult)),
      ("startIndex", match startIndex case Some(x) => Decimal(x) case None => "0")])
  }

  /** The URL is the one `BmwSearch` builds for new stock when `newCar`
      holds and for used stock otherwise, so it carries the base of its
      stock, `brand=BMW`, the page size capped at 50 and the start index,
      0 when none is given. */
  lemma BuildSearchUrlAgrees(newCar: bool, maxResult: u32, startIndex: Option<u32>)
    ensures BuildSearchUrl(newCar, maxResult, startIndex)
      == BmwSearch.BuildSearchUrl(if newCar then Config.New else Config.Used, maxResult, startIndex)
    ensures BmwSearch.ReadSearchUrl(BuildSearchUrl(newCar, maxResult, startIndex))
      == Some((if newCar then NewCarUrl else UsedCarUrl, Min(maxResult, MaxResult), startIndex.GetOr(0)))
  {
    BmwSearch.BuildSearchUrlReads(if newCar then Config.New else Config.Used, maxResult, startIndex);
  }

  // ---------------------------------------------------------------------
  // Request and response
  // ---------------------------------------------------------------------

  /** The request body of this path: a model for every context and always
      a sort. */
  datatype SearchContext = SearchContext(model: Dto.SearchModel)

  datatype SearchRequest = SearchRequest(searchContext: seq<SearchContext>, resultsContext: Dto.ResultsContext)

  /** The body is written with the same keys and order as the newer
      request with a model, no ids and a sort. */
  function AsDto(request: SearchRequest): Dto.SearchRequest {
    Dto.SearchRequest(
      seq(|request.searchContext|, i requires 0 <= i < |request.searchContext| =>
        Dto.SearchContext(Some(request.searchContext[i].model), None)),
      Some(request.resultsContext))
  }

  function ToJson(request: SearchRequest): string {
    Dto.Serialize(AsDto(request))
  }

  /** Two different bodies are never written as the same text. */
  lemma ToJsonInjective(a: SearchRequest, b: SearchRequest)
    requires ToJson(a) == ToJson(b)
    ensures a == b
  {
    Dto.SerializeInjective(AsDto(a), AsDto(b));
    var ca, cb := a.searchContext, b.searchContext;
    assert |ca| == |cb|;
    forall i | 0 <= i < |ca| ensures ca[i] == cb[i] {
      assert AsDto(a).searchContext[i] == AsDto(b).searchContext[i];
    }
  }

  /** The body `search_cars` sends: the iX2 model, sorted by price ascending. */
  function CarsRequest(): SearchRequest {
    SearchRequest(
      [SearchContext(Dto.SearchModel(Dto.FilterWithValues(["iX2_U10E"])))],
      Dto.ResultsContext([Dto.Sort(Dto.Price, Dto.Asc)]))
  }

  /** The requests of the serialisation tests of this path, the iX2 model
      sorted by price either way, are written as the newer path writes them
      (`SearchDto.SerializeExamples` gives that text). */
  lemma ToJsonExamples(order: Dto.SortOrder)
    ensures ToJson(SearchRequest(
        [SearchContext(Dto.SearchModel(Dto.FilterWithValues(["iX2_U10E"])))],
        Dto.ResultsContext([Dto.Sort(Dto.Price, order)])))
      == Dto.Serialize(Dto.ExampleRequest(order))
    ensures ToJson(CarsRequest()) == Dto.Serialize(Dto.ExampleRequest(Dto.Asc))
  {
    var request := SearchRequest(
      [SearchContext(Dto.SearchModel(Dto.FilterWithValues(["iX2_U10E"])))],
      Dto.ResultsContext([Dto.Sort(Dto.Price, order)]));
    assert AsDto(request).searchContext == Dto.ExampleRequest(order).searchContext;
    assert AsDto(CarsRequest()).searchContext == Dto.ExampleRequest(Dto.Asc).searchContext;
  }

  /** A hit of this path also carries the country; its score is a float and
      is not kept. */
  datatype Hit = Hit(country: string, vehicle: Vehicle)

  datatype SearchResponse = SearchResponse(metadata: Dto.Metadata, hits: seq<Hit>)

  datatype PageQuery = PageQuery(newCar: bool, maxResult: u32, startIndex: u32, body: SearchRequest)

  /** What the upstream answers to one page request. */
  type PageResult = Result<SearchResponse, BmwSearch.FetchError>

  type Upstream = (nat, PageQuery) -> PageResult

  /** The POST a page request sends: the page URL and the JSON body. */
  function Post(query: PageQuery): BmwSearch.HttpPost {
    BmwSearch.HttpPost(BuildSearchUrl(query.newCar, query.maxResult, Some(query.startIndex)), ToJson(query.body))
  }

  // ---------------------------------------------------------------------
  // Total count and plan
  // ---------------------------------------------------------------------

  /** The probe: a full page from index 0; any error counts as no result. */
  function GetTotalCount(upstream: Upstream, newCar: bool, body: SearchRequest): (r: u32)
    ensures var probe := upstream(0, PageQuery(newCar, MaxResult, 0, body));
      r == if probe.Ok? then probe.value.metadata.totalCount else 0
  {
    match upstream(0, PageQuery(newCar, MaxResult, 0, body))
    case Ok(res) => res.metadata.totalCount
    case _ => 0
  }

  /** The probe asks for 50 results at index 0. */
  lemma ProbeQuery(newCar: bool, body: SearchRequest)
    ensures BmwSearch.ReadSearchUrl(Post(PageQuery(newCar, MaxResult, 0, body)).url)
      == Some((if newCar then NewCarUrl else UsedCarUrl, 50, 0))
  {
    BuildSearchUrlAgrees(newCar, MaxResult, Some(0));
  }

  function EffectiveMax(count: u32, totalCount: u32): u32 {
    if totalCount > count then count else totalCount
  }

  lemma EffectiveMaxIsMin(count: u32, totalCount: u32)
    ensures EffectiveMax(count, totalCount) == Min(count, totalCount)
  {
  }

  function Step(max: u32): u32 {
    if max > MaxResult then MaxResult else max
  }

  /** The start index of every chunk; `None` stands for the panic of
      `step_by(0)`, which is what an effective max of 0 leads to. */
  function Chunks(max: u32): (r: Option<seq<u32>>)
  {
    var step := Step(max);
    if step == 0 then None
    else
      StepByValues(0, max, step);
      Some(seq(|StepBy(0, max, step)|, i requires 0 <= i < |StepBy(0, max, step)| => StepBy(0, max, step)[i] as u32))
  }

  /** The chunks exist exactly when there is something to fetch; chunk k
      starts at `k * step` below `max`, with `step = min(max, 50)`, and there
      are `ceil(max / step)` of them. */
  lemma ChunksShape(max: u32)
    ensures Chunks(max).None? <==> max == 0
    ensures Chunks(max).Some? ==> var chunks := Chunks(max).value;
      && Step(max) == Min(max, MaxResult) && 1 <= Step(max) <= MaxResult
      && |chunks| == (max + Step(max) - 1) / Step(max)
      && forall k :: 0 <= k < |chunks| ==> chunks[k] == k * Step(max) && chunks[k] < max
  {
    if max > 0 {
      StepByValues(0, max, Step(max));
      StepByLength(0, max, Step(max));
    }
  }

  /** Every index below `max` falls in some chunk. */
  lemma ChunksCover(max: u32, x: nat)
    requires x < max
    ensures var chunks := Chunks(max).value;
      exists k :: 0 <= k < |chunks| && chunks[k] <= x < chunks[k] + Step(max)
  {
    var starts := StepBy(0, max, Step(max));
    StepByCovers(0, max, Step(max), x);
    var k :| 0 <= k < |starts| && starts[k] <= x < starts[k] + Step(max);
    assert Chunks(max).value[k] == starts[k];
  }

  // ---------------------------------------------------------------------
  // Fetching
  // ---------------------------------------------------------------------

  /** What the upstream answers to each chunk, in plan order. */
  function PageOutcomes(upstream: Upstream, newCar: bool, step: u32, chunks: seq<u32>, body: SearchRequest)
    : (r: seq<PageResult>)
    ensures |r| == |chunks|
  {
    seq(|chunks|, i requires 0 <= i < |chunks| => upstream(i + 1, PageQuery(newCar, step, chunks[i], body)))
  }

  /** As `BmwSearch.HitVehicles`, for the hits of this path, which also
      carry the country. */
  function HitVehicles(hits: seq<Hit>): (r: seq<Vehicle>)
    ensures |r| == |hits| && forall i :: 0 <= i < |hits| ==> r[i] == hits[i].vehicle
  {
    seq(|hits|, i requires 0 <= i < |hits| => hits[i].vehicle)
  }

  /** What one page contributes: its vehicles when it answered, its error
      when it failed. */
  function PageVehicles(outcome: PageResult): seq<Vehicle> {
    if outcome.Ok? then HitVehicles(outcome.value.hits) else []
  }

  function PageErrors(outcome: PageResult): seq<BmwSearch.FetchError> {
    if outcome.Err? then [outcome.error] else []
  }

  /** The vehicles of all answered pages, in plan order. */
  function AllVehicles(outcomes: seq<PageResult>): seq<Vehicle> {
    Flatten(outcomes, PageVehicles)
  }

  /** The errors of all failed pages, in plan order. */
  function AllErrors(outcomes: seq<PageResult>): seq<BmwSearch.FetchError> {
    Flatten(outcomes, PageErrors)
  }

  /** The vehicles and the reported errors are those of the finished
      pages, each page counted once. */
  ghost predicate Accounted(outcomes: seq<PageResult>, finished: set<nat>, vehicles: seq<Vehicle>, reported: seq<BmwSearch.FetchError>) {
    && multiset(vehicles) == Collected(outcomes, PageVehicles, finished, 0)
    && multiset(reported) == Collected(outcomes, PageErrors, finished, 0)
  }

  /** The step of the fetch loop: adding the i-th page's vehicles or error
      to what the finished pages gave is what the finished pages and the
      i-th give. */
  lemma FinishPage(outcomes: seq<PageResult>, finished: set<nat>, i: nat,
                   vehicles: seq<Vehicle>, reported: seq<BmwSearch.FetchError>,
                   vehicles': seq<Vehicle>, reported': seq<BmwSearch.FetchError>)
    requires i < |outcomes| && i !in finished
    requires Accounted(outcomes, finished, vehicles, reported)
    requires outcomes[i].Ok? ==> vehicles' == vehicles + HitVehicles(outcomes[i].value.hits) && reported' == reported
    requires outcomes[i].Err? ==> vehicles' == vehicles && reported' == reported + [outcomes[i].error]
    ensures Accounted(outcomes, finished + {i}, vehicles', reported')
  {
    FinishOne(outcomes, PageVehicles, finished, i, 0);
    FinishOne(outcomes, PageErrors, finished, i, 0);
  }

  /** Before any page finishes nothing is gathered, and once every page
      has finished all the vehicles and all the errors are. */
  lemma AccountedBounds(outcomes: seq<PageResult>, finished: set<nat>, vehicles: seq<Vehicle>, reported: seq<BmwSearch.FetchError>)
    ensures Accounted(outcomes, {}, [], [])
    ensures Accounted(outcomes, finished, vehicles, reported) && (forall i :: 0 <= i < |outcomes| ==> i in finished) ==>
      multiset(vehicles) == multiset(AllVehicles(outcomes)) && multiset(reported) == multiset(AllErrors(outcomes))
  {
    GatheredBounds(outcomes, PageVehicles, finished);
    GatheredBounds(outcomes, PageErrors, finished);
  }

  /** How `search_cars` ends: it panics in `step_by(0)`, or it returns the
      vehicles it gathered, having reported the errors of the failed pages
      on the error stream. */
  datatype Outcome = Panicked | Completed(vehicles: seq<Vehicle>, reported: seq<BmwSearch.FetchError>)

  /** Takes the pages' answers as they finish, in any order; a page that
      answered adds its vehicles, a page that failed is reported and
      skipped. */
  method Gather(responses: seq<PageResult>) returns (vehicles: seq<Vehicle>, reported: seq<BmwSearch.FetchError>)
    ensures multiset(vehicles) == multiset(AllVehicles(responses))
    ensures multiset(reported) == multiset(AllErrors(responses))
  {
    var pending: set<nat> := BmwSearch.Indices(|responses|);
    ghost var finished: set<nat> := {};
    vehicles, reported := [], [];
    AccountedBounds(responses, {}, [], []);
    while pending != {}
      invariant forall i :: i in pending ==> i < |responses|
      invariant forall i :: 0 <= i < |responses| ==> (i in pending <==> i !in finished)
      invariant Accounted(responses, finished, vehicles, reported)
      decreases |pending|
    {
      var i :| i in pending;
      ghost var before := (vehicles, reported);
      match responses[i] {
        case Ok(res) =>
          vehicles := vehicles + HitVehicles(res.hits);
        case Err(e) =>
          reported := reported + [e];
      }
      FinishPage(responses, finished, i, before.0, before.1, vehicles, reported);
      pending := pending - {i};
      finished := finished + {i};
    }
    AccountedBounds(responses, finished, vehicles, reported);
  }

  /** `search_cars(new_car, count)`: probe, take the smaller of the count
      and the total, cut it into chunks of at most 50, and fetch them best
      effort. It panics when there is nothing to fetch. */
  method SearchCars(upstream: Upstream, newCar: bool, count: u32) returns (r: Outcome)
    ensures var max := EffectiveMax(count, GetTotalCount(upstream, newCar, CarsRequest()));
      && (r.Panicked? <==> max == 0)
      && (r.Completed? ==>
            var outcomes := PageOutcomes(upstream, newCar, Step(max), Chunks(max).value, CarsRequest());
            && multiset(r.vehicles) == multiset(AllVehicles(outcomes))
            && |r.vehicles| == |AllVehicles(outcomes)|
            && multiset(r.reported) == multiset(AllErrors(outcomes)))
  {
    var body := CarsRequest();
    var totalCount := GetTotalCount(upstream, newCar, body);
    var max := EffectiveMax(count, totalCount);
    var step := Step(max);
    if step == 0 {
      return Panicked;
    }
    var chunks := Chunks(max).value;
    var responses := PageOutcomes(upstream, newCar, step, chunks, body);
    var vehicles, reported := Gather(responses);
    assert |vehicles| == |multiset(vehicles)| == |multiset(AllVehicles(responses))| == |AllVehicles(responses)|;
    return Completed(vehicles, reported);
  }

  /** With no page failing nothing is reported; with every page failing no
      vehicle is kept and every page is reported. */
  lemma {:induction false} AllOrNothing(outcomes: seq<PageResult>)
    ensures (forall i :: 0 <= i < |outcomes| ==> outcomes[i].Ok?) ==> AllErrors(outcomes) == []
    ensures (forall i :: 0 <= i < |outcomes| ==> outcomes[i].Err?) ==> AllVehicles(outcomes) == [] && |AllErrors(outcomes)| == |outcomes|
  {
    if outcomes != [] {
      AllOrNothing(outcomes[1..]);
      assert forall i :: 0 <= i < |outcomes[1..]| ==> outcomes[1..][i] == outcomes[i + 1];
    }
  }
}
