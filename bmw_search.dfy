/** The search against the stock-locator API: the page URL, the probe for
    the total count, the plan of page calls, the lookup of one vehicle by
    its VSS id, and the search that gathers every planned page into a map
    keyed by VSS id and fails as a whole when one page fails.

    The HTTP exchange is a parameter: an `Upstream` maps the number of a
    request and the POST it carries (URL and JSON body) to either the
    decoded response or an error. Request 0 is the first request a search
    sends (the probe, or the single lookup); the i-th planned page is
    request i + 1. */
module BmwSearch {
  import opened Prelude
  import opened Text
  import opened RangeStep
  import opened UrlQuery
  import opened Config
  import opened Vehicles
  import opened SearchDto
  import opened Gathering

  const NewCarUrl: string := "https://stolo-data-service.prod.stolo.eu-central-1.aws.bmw.cloud/vehiclesearch/search/fr-fr/stocklocator"
  const UsedCarUrl: string := "https://stolo-data-service.prod.stolo.eu-central-1.aws.bmw.cloud/vehiclesearch/search/fr-fr/stocklocator_uc"
  /** The largest page the API serves. */
  const MaxResult: u32 := 50

  /** What can go wrong with one request: the transport fails, the status is
      not a success, or the body is not a search response. */
  datatype FetchError = Transport | HttpStatus(code: nat) | MalformedBody

  /** The error a search reports when one of its page requests failed. */
  datatype SearchError = RequestFailed

  /** One page request: which stock, how many results from which index, and
      the search body. `Post` gives the URL and the JSON text it is sent as. */
  datatype PageQuery = PageQuery(condition: Condition, maxResult: u32, startIndex: u32, body: SearchRequest)

  datatype HttpPost = HttpPost(url: string, body: string)

  type Upstream = (nat, PageQuery) -> Result<SearchResponse, FetchError>

  // ---------------------------------------------------------------------
  // Page URL
  // ---------------------------------------------------------------------

  function BaseUrl(condition: Condition): string {
    match condition
    case New => NewCarUrl
    case Used => UsedCarUrl
  }

  function SearchParams(maxResult: u32, startIndex: Option<u32>): seq<(string, string)> {
    [ ("brand", "BMW"),
      ("maxResults", Decimal(if maxResult > MaxResult then MaxResult else maxResult)),
      ("startIndex", match startIndex case Some(x) => Decimal(x) case None => "0") ]
  }

  function BuildSearchUrl(condition: Condition, maxResult: u32, startIndex: Option<u32>): string {
    WithParams(BaseUrl(condition), SearchParams(maxResult, startIndex))
  }

  /** Reads a page URL back into its base, page size and start index. */
  function ReadSearchUrl(url: string): Option<(string, nat, nat)> {
    var (base, params) :- ParseUrl(url);
    if |params| == 3 && params[0] == ("brand", "BMW") && params[1].0 == "maxResults" && params[2].0 == "startIndex" then
      var maxResult :- ParseDecimal(params[1].1);
      var startIndex :- ParseDecimal(params[2].1);
      Some((base, maxResult, startIndex))
    else None
  }

  lemma DecimalPlain(n: nat)
    ensures Plain(Decimal(n))
  {
  }

  /** A page URL names the base of its condition, `brand=BMW`, the page size
      capped at 50, and the start index, 0 when none is given. */
  lemma BuildSearchUrlReads(condition: Condition, maxResult: u32, startIndex: Option<u32>)
    ensures ReadSearchUrl(BuildSearchUrl(condition, maxResult, startIndex))
      == Some((BaseUrl(condition), Min(maxResult, MaxResult), startIndex.GetOr(0)))
  {
    var params := SearchParams(maxResult, startIndex);
    var m, x := Min(maxResult, MaxResult), startIndex.GetOr(0);
    assert Decimal(0) == "0";
    assert params == [("brand", "BMW"), ("maxResults", Decimal(m)), ("startIndex", Decimal(x))];
    SearchParamsPlain(m, x);
    UrlRoundTrip(BaseUrl(condition), params);
    DecimalRoundTrip(m);
    DecimalRoundTrip(x);
  }

  lemma SearchParamsPlain(m: nat, x: nat)
    ensures PlainParams([("brand", "BMW"), ("maxResults", Decimal(m)), ("startIndex", Decimal(x))])
  {
    DecimalPlain(m);
    DecimalPlain(x);
    assert Plain("brand") && Plain("BMW") && Plain("maxResults") && Plain("startIndex");
  }

  /** The URL starts with the base of its condition, and the two conditions
      have different bases. */
  lemma BuildSearchUrlBase(condition: Condition, maxResult: u32, startIndex: Option<u32>)
    ensures StartsWith(BuildSearchUrl(condition, maxResult, startIndex), BaseUrl(condition))
    ensures BaseUrl(New) != BaseUrl(Used)
  {
    assert |NewCarUrl| != |UsedCarUrl|;
    var url := BuildSearchUrl(condition, maxResult, startIndex);
    assert url == BaseUrl(condition) + ("?" + Query(SearchParams(maxResult, startIndex)));
  }

  lemma SearchQueryText(maxText: string, startText: string)
    ensures Query([("brand", "BMW"), ("maxResults", maxText), ("startIndex", startText)])
      == "brand=BMW&maxResults=" + maxText + "&startIndex=" + startText
  {
    var m, s := maxText, startText;
    QueryOfThree(("brand", "BMW"), ("maxResults", m), ("startIndex", s));
    var brand, k, l := Pair(("brand", "BMW")), "maxResults" + "=", "startIndex" + "=";
    assert Pair(("maxResults", m)) == k + m && Pair(("startIndex", s)) == l + s;
    RegroupPairs(brand, "&", k, m, "&", l, s);
    QueryPieces();
  }

  lemma RegroupPairs(a: string, sep: string, k: string, m: string, sep': string, l: string, s: string)
    ensures a + sep + ((k + m) + sep' + (l + s)) == (a + sep + k) + m + (sep' + l) + s
  {
    calc {
      a + sep + ((k + m) + sep' + (l + s));
      { AppendAssoc(k + m, sep', l + s); AppendAssoc(k, m, sep' + (l + s)); }
      a + sep + (k + (m + (sep' + (l + s))));
      { AppendAssoc(a + sep, k, m + (sep' + (l + s))); }
      (a + sep + k) + (m + (sep' + (l + s)));
      { AppendAssoc(sep', l, s); AppendAssoc(m, sep' + l, s); AppendAssoc(a + sep + k, m + (sep' + l), s); AppendAssoc(a + sep + k, m, sep' + l); }
      (a + sep + k) + m + (sep' + l) + s;
    }
  }

  lemma QueryPieces()
    ensures Pair(("brand", "BMW")) + "&" + ("maxResults" + "=") == "brand=BMW&maxResults="
    ensures "&" + ("startIndex" + "=") == "&startIndex="
  {
  }

  lemma Regroup(base: string, c: string, p: string, m: string, a: string, s: string)
    ensures base + c + (p + m + a + s) == base + (c + p) + m + a + s
  {
    calc {
      base + c + (p + m + a + s);
      { AppendAssoc(base, c, p + m + a + s); }
      base + (c + (p + m + a + s));
      { AppendAssoc(p + m, a, s); AppendAssoc(p, m, a + s); AppendAssoc(c, p, m + (a + s)); }
      base + ((c + p) + (m + (a + s)));
      { AppendAssoc(base, c + p, m + (a + s)); }
      base + (c + p) + (m + (a + s));
      { AppendAssoc(m, a, s); AppendAssoc(base + (c + p), m + a, s); AppendAssoc(base + (c + p), m, a); }
      base + (c + p) + m + a + s;
    }
  }

  lemma SearchUrlText(base: string, maxText: string, startText: string)
    ensures WithParams(base, [("brand", "BMW"), ("maxResults", maxText), ("startIndex", startText)])
      == base + "?brand=BMW&maxResults=" + maxText + "&startIndex=" + startText
  {
    var params := [("brand", "BMW"), ("maxResults", maxText), ("startIndex", startText)];
    SearchQueryText(maxText, startText);
    assert WithParams(base, params) == base + "?" + Query(params);
    Regroup(base, "?", "brand=BMW&maxResults=", maxText, "&startIndex=", startText);
    QueryMark();
  }

  lemma QueryMark()
    ensures "?" + "brand=BMW&maxResults=" == "?brand=BMW&maxResults="
  {
  }

  /** The text of a page URL: the base, then `brand`, `maxResults` and
      `startIndex` in that order. */
  lemma BuildSearchUrlText(condition: Condition, maxResult: u32, startIndex: Option<u32>)
    ensures BuildSearchUrl(condition, maxResult, startIndex)
      == BaseUrl(condition) + "?brand=BMW&maxResults=" + Decimal(Min(maxResult, MaxResult)) + "&startIndex=" + Decimal(startIndex.GetOr(0))
  {
    var m, s := Decimal(Min(maxResult, MaxResult)), Decimal(startIndex.GetOr(0));
    assert Decimal(0) == "0";
    assert SearchParams(maxResult, startIndex) == [("brand", "BMW"), ("maxResults", m), ("startIndex", s)];
    SearchUrlText(BaseUrl(condition), m, s);
  }

  /** The URL the unit tests expect for a page size of 42 and no start index. */
  lemma BuildSearchUrlDefaults()
    ensures BuildSearchUrl(New, 42, None) == NewCarUrl + "?brand=BMW&maxResults=42&startIndex=0"
  {
    BuildSearchUrlText(New, 42, None);
    DecimalExamples();
    BuildSearchUrlDefaultsQuery();
    QueryTextExample(NewCarUrl, "42", "0", "?brand=BMW&maxResults=42&startIndex=0");
  }

  lemma BuildSearchUrlDefaultsQuery()
    ensures "?brand=BMW&maxResults=" + "42" + "&startIndex=" + "0" == "?brand=BMW&maxResults=42&startIndex=0"
  {
  }

  /** A page size of 109 is written as 50. */
  lemma BuildSearchUrlCapped()
    ensures BuildSearchUrl(New, 109, None) == NewCarUrl + "?brand=BMW&maxResults=50&startIndex=0"
  {
    BuildSearchUrlText(New, 109, None);
    DecimalExamples();
    BuildSearchUrlCappedQuery();
    QueryTextExample(NewCarUrl, "50", "0", "?brand=BMW&maxResults=50&startIndex=0");
  }

  lemma BuildSearchUrlCappedQuery()
    ensures "?brand=BMW&maxResults=" + "50" + "&startIndex=" + "0" == "?brand=BMW&maxResults=50&startIndex=0"
  {
  }

  /** A start index of 42000 is written as it is. */
  lemma BuildSearchUrlStartIndex()
    ensures BuildSearchUrl(New, 42, Some(42000)) == NewCarUrl + "?brand=BMW&maxResults=42&startIndex=42000"
  {
    BuildSearchUrlText(New, 42, Some(42000));
    DecimalExamples();
    BuildSearchUrlStartIndexQuery();
    QueryTextExample(NewCarUrl, "42", "42000", "?brand=BMW&maxResults=42&startIndex=42000");
  }

  lemma BuildSearchUrlStartIndexQuery()
    ensures "?brand=BMW&maxResults=" + "42" + "&startIndex=" + "42000" == "?brand=BMW&maxResults=42&startIndex=42000"
  {
  }

  lemma DecimalExamples()
    ensures Decimal(0) == "0" && Decimal(42) == "42" && Decimal(50) == "50" && Decimal(42000) == "42000"
  {
    assert Decimal(4) == "4";
    assert Decimal(42) == "42";
    assert Decimal(420) == "420";
    assert Decimal(4200) == "4200";
  }

  lemma QueryTextExample(base: string, maxText: string, startText: string, query: string)
    requires "?brand=BMW&maxResults=" + maxText + "&startIndex=" + startText == query
    ensures base + "?brand=BMW&maxResults=" + maxText + "&startIndex=" + startText == base + query
  {
    var q := "?brand=BMW&maxResults=";
    AppendAssoc(base, q + maxText + "&startIndex=", startText);
    AppendAssoc(base, q + maxText, "&startIndex=");
    AppendAssoc(base, q, maxText);
  }

  // ---------------------------------------------------------------------
  // One request
  // ---------------------------------------------------------------------

  /** The POST a page request sends: the page URL and the JSON body. */
  function Post(query: PageQuery): HttpPost {
    HttpPost(BuildSearchUrl(query.condition, query.maxResult, Some(query.startIndex)), Serialize(query.body))
  }

  /** `query_search`: the n-th request of a search, for one page. */
  function QuerySearch(upstream: Upstream, n: nat, condition: Condition, maxResult: u32, startIndex: u32, body: SearchRequest): Result<SearchResponse, FetchError> {
    upstream(n, PageQuery(condition, maxResult, startIndex, body))
  }

  /** The server can read back from a POST the page it asks for and the
      request body it carries. */
  lemma PostReads(query: PageQuery)
    ensures && ReadSearchUrl(Post(query).url) == Some((BaseUrl(query.condition), Min(query.maxResult, MaxResult), query.startIndex))
      && Deserialize(Post(query).body) == Some(query.body)
  {
    BuildSearchUrlReads(query.condition, query.maxResult, Some(query.startIndex));
    SerializeRoundTrip(query.body);
  }

  // ---------------------------------------------------------------------
  // Total count
  // ---------------------------------------------------------------------

  /** The probe: one result from index 0; any error counts as no result. */
  function GetTotalCount(upstream: Upstream, condition: Condition, body: SearchRequest): (r: u32)
    ensures var probe := upstream(0, PageQuery(condition, 1, 0, body));
      r == if probe.Ok? then probe.value.metadata.totalCount else 0
  {
    match QuerySearch(upstream, 0, condition, 1, 0, body)
    case Ok(res) => res.metadata.totalCount
    case Err(_) => 0
  }

  /** The probe asks for a single result at index 0 with the search's own body. */
  lemma ProbeQuery(condition: Condition, body: SearchRequest)
    ensures ReadSearchUrl(Post(PageQuery(condition, 1, 0, body)).url) == Some((BaseUrl(condition), 1, 0))
    ensures Deserialize(Post(PageQuery(condition, 1, 0, body)).body) == Some(body)
  {
    PostReads(PageQuery(condition, 1, 0, body));
  }

  // ---------------------------------------------------------------------
  // Call plan
  // ---------------------------------------------------------------------

  datatype CallDefinition = CallDefinition(condition: Condition, startIndex: u32, maxResult: u32, body: SearchRequest)

  /** The number of vehicles to fetch: the limit when it is below the total,
      the total otherwise. */
  function EffectiveMax(limit: Option<u32>, totalCount: u32): u32 {
    match limit
    case Some(l) => if totalCount > l then l else totalCount
    case None => totalCount
  }

  /** The effective max is the smaller of the total and the limit, and is
      the total when there is no limit. */
  lemma EffectiveMaxIsMin(limit: Option<u32>, totalCount: u32)
    ensures EffectiveMax(limit, totalCount) == Min(totalCount, limit.GetOr(totalCount))
    ensures EffectiveMax(limit, totalCount) <= totalCount
  {
  }

  function PageSize(max: u32): u32 {
    if max > MaxResult then MaxResult else max
  }

  function DetermineCallsNeeded(configuration: Configuration, body: SearchRequest, totalCount: u32): seq<CallDefinition> {
    var max := EffectiveMax(configuration.limit, totalCount);
    if max < 1 then []
    else
      var step := PageSize(max);
      var starts := StepBy(0, max, step);
      StepByValues(0, max, step);
      seq(|starts|, i requires 0 <= i < |starts| => CallDefinition(configuration.condition, starts[i], step, body))
  }

  /** No call is planned exactly when there is nothing to fetch. */
  lemma CallsEmptyIff(configuration: Configuration, body: SearchRequest, totalCount: u32)
    ensures |DetermineCallsNeeded(configuration, body, totalCount)| == 0
      <==> EffectiveMax(configuration.limit, totalCount) == 0
  {
    var max := EffectiveMax(configuration.limit, totalCount);
    if max >= 1 {
      StepByValues(0, max, PageSize(max));
    }
  }

  /** Call i asks for `step = min(max, 50)` results from index `i * step`,
      below `max`, with the configured condition and the search's body. */
  lemma CallsShape(configuration: Configuration, body: SearchRequest, totalCount: u32)
    ensures var max := EffectiveMax(configuration.limit, totalCount);
      var calls := DetermineCallsNeeded(configuration, body, totalCount);
      forall i :: 0 <= i < |calls| ==>
        && calls[i].maxResult == Min(max, MaxResult)
        && 1 <= calls[i].maxResult <= MaxResult
        && calls[i].startIndex == i * calls[i].maxResult
        && calls[i].startIndex < max
        && calls[i].condition == configuration.condition
        && calls[i].body == body
  {
    var max := EffectiveMax(configuration.limit, totalCount);
    if max >= 1 {
      StepByValues(0, max, PageSize(max));
    }
  }

  /** There are `ceil(max / step)` calls. */
  lemma CallsCount(configuration: Configuration, body: SearchRequest, totalCount: u32)
    ensures var max := EffectiveMax(configuration.limit, totalCount);
      max >= 1 ==> |DetermineCallsNeeded(configuration, body, totalCount)| == (max + PageSize(max) - 1) / PageSize(max)
  {
    var max := EffectiveMax(configuration.limit, totalCount);
    if max >= 1 {
      StepByLength(0, max, PageSize(max));
    }
  }

  /** The pages `[start, start + maxResult)` are in order and do not overlap. */
  lemma CallsDisjoint(configuration: Configuration, body: SearchRequest, totalCount: u32)
    ensures var calls := DetermineCallsNeeded(configuration, body, totalCount);
      forall i, j :: 0 <= i < j < |calls| ==> calls[i].startIndex + calls[i].maxResult <= calls[j].startIndex
  {
    var max := EffectiveMax(configuration.limit, totalCount);
    if max >= 1 {
      var starts := StepBy(0, max, PageSize(max));
      var calls := DetermineCallsNeeded(configuration, body, totalCount);
      StepByDisjoint(0, max, PageSize(max));
      forall i, j | 0 <= i < j < |calls|
        ensures calls[i].startIndex + calls[i].maxResult <= calls[j].startIndex
      {
        assert calls[i].startIndex == starts[i] && calls[j].startIndex == starts[j];
        assert calls[i].maxResult == PageSize(max);
        assert starts[i] + PageSize(max) <= starts[j];
      }
    }
  }

  /** Every index below the effective max falls in some planned page. */
  lemma CallsCover(configuration: Configuration, body: SearchRequest, totalCount: u32, x: nat)
    requires x < EffectiveMax(configuration.limit, totalCount)
    ensures var calls := DetermineCallsNeeded(configuration, body, totalCount);
      exists i :: 0 <= i < |calls| && calls[i].startIndex <= x < calls[i].startIndex + calls[i].maxResult
  {
    var max := EffectiveMax(configuration.limit, totalCount);
    var calls := DetermineCallsNeeded(configuration, body, totalCount);
    StepByCovers(0, max, PageSize(max), x);
    var k :| 0 <= k < |StepBy(0, max, PageSize(max))| && StepBy(0, max, PageSize(max))[k] <= x < StepBy(0, max, PageSize(max))[k] + PageSize(max);
    assert calls[k].startIndex <= x < calls[k].startIndex + calls[k].maxResult;
  }

  lemma CallsExamples(body: SearchRequest)
    ensures DetermineCallsNeeded(Configuration([], New, None, None), body, 120)
      == [CallDefinition(New, 0, 50, body), CallDefinition(New, 50, 50, body), CallDefinition(New, 100, 50, body)]
    ensures DetermineCallsNeeded(Configuration([], Used, Some(30), None), body, 120)
      == [CallDefinition(Used, 0, 30, body)]
    ensures DetermineCallsNeeded(Configuration([], New, Some(5), None), body, 0) == []
  {
    assert StepBy(0, 120, 50) == [0, 50, 100];
    assert StepBy(0, 30, 30) == [0];
  }

  // ---------------------------------------------------------------------
  // Lookup by VSS id
  // ---------------------------------------------------------------------

  /** The body of a lookup: no model, the one id, no sort. */
  function VssIdRequest(vssId: VssId): SearchRequest {
    SearchRequest([SearchContext(None, Some(FilterWithValues([vssId])))], None)
  }

  /** One result from index 0: nothing when there is no hit, the first hit's
      vehicle otherwise; an error is passed on unchanged. */
  function SearchByVssId(upstream: Upstream, configuration: Configuration, vssId: VssId): (r: Result<Option<Vehicle>, FetchError>)
    ensures var response := upstream(0, PageQuery(configuration.condition, 1, 0, VssIdRequest(vssId)));
      && (r.Err? <==> response.Err?)
      && (r.Err? ==> r.error == response.error)
      && (r == Ok(None) <==> response.Ok? && |response.value.hits| == 0)
      && (r.Ok? && r.value.Some? ==> r.value.value == response.value.hits[0].vehicle)
  {
    match QuerySearch(upstream, 0, configuration.condition, 1, 0, VssIdRequest(vssId))
    case Ok(res) => if |res.hits| == 0 then Ok(None) else Ok(Some(res.hits[0].vehicle))
    case Err(e) => Err(e)
  }

  /** A lookup asks for one result at index 0, and its body carries exactly
      the one id and no model. */
  lemma VssIdLookupQuery(condition: Condition, vssId: VssId)
    ensures var post := Post(PageQuery(condition, 1, 0, VssIdRequest(vssId)));
      && ReadSearchUrl(post.url) == Some((BaseUrl(condition), 1, 0))
      && Deserialize(post.body) == Some(SearchRequest([SearchContext(None, Some(FilterWithValues([vssId])))], None))
  {
    PostReads(PageQuery(condition, 1, 0, VssIdRequest(vssId)));
  }

  // ---------------------------------------------------------------------
  // Search
  // ---------------------------------------------------------------------

  /** The body of a search: the configured models, sorted by price ascending. */
  function CategoryRequest(models: seq<string>): SearchRequest {
    SearchRequest([SearchContext(Some(SearchModel(FilterWithValues(models))), None)], Some(ResultsContext([Sort(Price, Asc)])))
  }

  /** The calls a search plans after its probe. */
  function Plan(upstream: Upstream, configuration: Configuration): seq<CallDefinition> {
    var body := CategoryRequest(configuration.models);
    DetermineCallsNeeded(configuration, body, GetTotalCount(upstream, configuration.condition, body))
  }

  /** The numbers below `n`. */
  function Indices(n: nat): (s: set<nat>)
    ensures forall i: int :: i in s <==> 0 <= i < n
  {
    if n == 0 then {} else Indices(n - 1) + {n - 1}
  }

  /** What the upstream answers to each planned page, in plan order. */
  function PageOutcomes(upstream: Upstream, calls: seq<CallDefinition>): (r: seq<Result<SearchResponse, FetchError>>)
    ensures |r| == |calls|
  {
    seq(|calls|, i requires 0 <= i < |calls| =>
      QuerySearch(upstream, i + 1, calls[i].condition, calls[i].maxResult, calls[i].startIndex, calls[i].body))
  }

  function HitVehicles(hits: seq<Hit>): (r: seq<Vehicle>)
    ensures |r| == |hits| && forall i :: 0 <= i < |hits| ==> r[i] == hits[i].vehicle
  {
    seq(|hits|, i requires 0 <= i < |hits| => hits[i].vehicle)
  }

  /** The vehicles of one page; none when it failed. */
  function PageVehicles(outcome: Result<SearchResponse, FetchError>): seq<Vehicle> {
    match outcome
    case Ok(res) => HitVehicles(res.hits)
    case Err(_) => []
  }

  /** The vehicles of all pages, in plan order. */
  function AllVehicles(outcomes: seq<Result<SearchResponse, FetchError>>): seq<Vehicle> {
    Flatten(outcomes, PageVehicles)
  }

  lemma {:induction false} AllVehiclesIff(outcomes: seq<Result<SearchResponse, FetchError>>, v: Vehicle)
    ensures v in AllVehicles(outcomes) <==> exists i :: 0 <= i < |outcomes| && v in PageVehicles(outcomes[i])
  {
    if outcomes != [] {
      var tail := outcomes[1..];
      AllVehiclesIff(tail, v);
      if v in PageVehicles(outcomes[0]) {
        assert 0 <= 0 < |outcomes| && v in PageVehicles(outcomes[0]);
      } else if v in AllVehicles(tail) {
        var i :| 0 <= i < |tail| && v in PageVehicles(tail[i]);
        assert v in PageVehicles(outcomes[i + 1]);
      }
      if exists i :: 0 <= i < |outcomes| && v in PageVehicles(outcomes[i]) {
        var i :| 0 <= i < |outcomes| && v in PageVehicles(outcomes[i]);
        if i > 0 {
          assert v in PageVehicles(tail[i - 1]);
        }
      }
    }
  }

  ghost predicate SomePageFails(outcomes: seq<Result<SearchResponse, FetchError>>) {
    exists i :: 0 <= i < |outcomes| && outcomes[i].Err?
  }

  /** Each vehicle under the id it carries; a later vehicle with the same id
      replaces an earlier one. */
  method IndexByVssId(vehicles: seq<Vehicle>) returns (m: map<VssId, Vehicle>)
    ensures m.Keys == set v | v in vehicles :: v.vssId
    ensures forall id :: id in m ==> m[id].vssId == id && m[id] in vehicles
    ensures forall j :: 0 <= j < |vehicles| && LastWithItsId(vehicles, j, |vehicles|) ==> m[vehicles[j].vssId] == vehicles[j]
  {
    m := map[];
    var i := 0;
    IndexedStart(vehicles);
    while i < |vehicles|
      invariant 0 <= i <= |vehicles|
      invariant Indexed(vehicles, i, m)
    {
      IndexStep(vehicles, i, m);
      m := m[vehicles[i].vssId := vehicles[i]];
      i := i + 1;
    }
    assert vehicles[..i] == vehicles;
  }

  /** `m` indexes the first `i` vehicles: its keys are their ids, each entry
      is one of them carrying its key, and the last of them with an id is
      the entry for that id. */
  ghost predicate Indexed(vehicles: seq<Vehicle>, i: nat, m: map<VssId, Vehicle>)
    requires i <= |vehicles|
  {
    && m.Keys == (set v | v in vehicles[..i] :: v.vssId)
    && (forall id :: id in m ==> m[id].vssId == id && m[id] in vehicles[..i])
    && (forall j :: 0 <= j < i && LastWithItsId(vehicles, j, i) ==> m[vehicles[j].vssId] == vehicles[j])
  }

  lemma IndexedStart(vehicles: seq<Vehicle>)
    ensures Indexed(vehicles, 0, map[])
  {
    assert vehicles[..0] == [];
  }

  /** Entering the i-th vehicle under its id indexes one more vehicle. */
  lemma IndexStep(vehicles: seq<Vehicle>, i: nat, m: map<VssId, Vehicle>)
    requires i < |vehicles| && Indexed(vehicles, i, m)
    ensures Indexed(vehicles, i + 1, m[vehicles[i].vssId := vehicles[i]])
  {
    IdsStep(vehicles, i);
    LastStep(vehicles, i);
  }

  /** The ids of a prefix grow by the id of the next vehicle. */
  lemma IdsStep(vehicles: seq<Vehicle>, i: nat)
    requires i < |vehicles|
    ensures (set u | u in vehicles[..i + 1] :: u.vssId) == (set u | u in vehicles[..i] :: u.vssId) + {vehicles[i].vssId}
    ensures forall u :: u in vehicles[..i] ==> u in vehicles[..i + 1]
  {
    assert vehicles[..i + 1] == vehicles[..i] + [vehicles[i]];
  }

  /** A vehicle last with its id among the first i + 1 is the i-th, or is
      last among the first i and has another id than the i-th. */
  lemma LastStep(vehicles: seq<Vehicle>, i: nat)
    requires i < |vehicles|
    ensures forall j :: 0 <= j < i && LastWithItsId(vehicles, j, i + 1) ==>
      LastWithItsId(vehicles, j, i) && vehicles[j].vssId != vehicles[i].vssId
  {
  }

  /** No vehicle after the j-th and before the bound has the j-th's id. */
  ghost predicate LastWithItsId(vehicles: seq<Vehicle>, j: nat, bound: nat)
    requires j < |vehicles| && bound <= |vehicles|
  {
    forall k :: j < k < bound ==> vehicles[k].vssId != vehicles[j].vssId
  }

  /** The vehicles gathered are those of the finished pages, each page
      counted once. */
  ghost predicate Fetched(outcomes: seq<Result<SearchResponse, FetchError>>, finished: set<nat>, vehicles: seq<Vehicle>) {
    multiset(vehicles) == Collected(outcomes, PageVehicles, finished, 0)
  }

  /** The step of the fetch loop: a page that answered adds its vehicles. */
  lemma FetchStep(outcomes: seq<Result<SearchResponse, FetchError>>, finished: set<nat>, i: nat,
                  vehicles: seq<Vehicle>, vehicles': seq<Vehicle>)
    requires i < |outcomes| && i !in finished && outcomes[i].Ok?
    requires Fetched(outcomes, finished, vehicles)
    requires vehicles' == vehicles + HitVehicles(outcomes[i].value.hits)
    ensures Fetched(outcomes, finished + {i}, vehicles')
  {
    FinishOne(outcomes, PageVehicles, finished, i, 0);
  }

  /** Before any page finishes nothing is gathered; once all have, the
      vehicles of every page are, as often as the pages hold them. */
  lemma FetchedBounds(outcomes: seq<Result<SearchResponse, FetchError>>, finished: set<nat>, vehicles: seq<Vehicle>)
    ensures Fetched(outcomes, {}, [])
    ensures Fetched(outcomes, finished, vehicles) && (forall i :: 0 <= i < |outcomes| ==> i in finished) ==>
      multiset(vehicles) == multiset(AllVehicles(outcomes))
  {
    GatheredBounds(outcomes, PageVehicles, finished);
  }

  /** Fetches the planned pages, which finish in any order, and gathers
      their vehicles in the order the pages finish; the first failed page to
      finish ends the fetch with an error. */
  method FetchPages(upstream: Upstream, calls: seq<CallDefinition>) returns (r: Result<seq<Vehicle>, SearchError>)
    ensures var outcomes := PageOutcomes(upstream, calls);
      && (r.Err? <==> SomePageFails(outcomes))
      && (r.Ok? ==> multiset(r.value) == multiset(AllVehicles(outcomes)))
      && (r.Ok? ==> forall v :: v in r.value <==> v in AllVehicles(outcomes))
  {
    ghost var outcomes := PageOutcomes(upstream, calls);
    var pending: set<nat> := Indices(|calls|);
    ghost var finished: set<nat> := {};
    var vehicles: seq<Vehicle> := [];
    FetchedBounds(outcomes, {}, []);
    while pending != {}
      invariant forall i :: i in pending ==> i < |calls|
      invariant forall i :: 0 <= i < |calls| ==> (i in pending <==> i !in finished)
      invariant forall i :: 0 <= i < |calls| && i !in pending ==> outcomes[i].Ok?
      invariant Fetched(outcomes, finished, vehicles)
      decreases |pending|
    {
      var i :| i in pending;
      var call := calls[i];
      var outcome := QuerySearch(upstream, i + 1, call.condition, call.maxResult, call.startIndex, call.body);
      assert outcome == outcomes[i];
      if outcome.Err? {
        return Err(RequestFailed);
      }
      ghost var before := vehicles;
      vehicles := vehicles + HitVehicles(outcome.value.hits);
      FetchStep(outcomes, finished, i, before, vehicles);
      pending := pending - {i};
      finished := finished + {i};
    }
    FetchedBounds(outcomes, finished, vehicles);
    assert forall v :: v in vehicles <==> v in multiset(vehicles);
    return Ok(vehicles);
  }

  /** The search: probe, plan, fetch the pages, then index their vehicles
      by VSS id. A failed page fails the whole search. */
  method Search(upstream: Upstream, configuration: Configuration) returns (r: Result<map<VssId, Vehicle>, SearchError>)
    ensures var outcomes := PageOutcomes(upstream, Plan(upstream, configuration));
      && (r.Err? <==> SomePageFails(outcomes))
      && (r.Ok? ==> r.value.Keys == set v | v in AllVehicles(outcomes) :: v.vssId)
      && (r.Ok? ==> forall id :: id in r.value ==> r.value[id].vssId == id && r.value[id] in AllVehicles(outcomes))
  {
    var body := CategoryRequest(configuration.models);
    var totalCount := GetTotalCount(upstream, configuration.condition, body);
    var calls := DetermineCallsNeeded(configuration, body, totalCount);
    var fetched := FetchPages(upstream, calls);
    if fetched.Err? {
      return Err(RequestFailed);
    }
    var m := IndexByVssId(fetched.value);
    return Ok(m);
  }
}
