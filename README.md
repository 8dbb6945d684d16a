# bmw-finder in Dafny

A model of the search and listing core of bmw-finder, a command-line tool that
queries the BMW France stock locator for new or used cars of some model
ranges, and lists them by price, optionally keeping only vehicles with given
equipment.

The model follows the program's modules:

- `BmwSearch` (`src/bmw/search/mod.rs`) covers the search itself:
  - the page URL, the probe request for the total count, and the plan of page calls;
  - fetching the pages concurrently, and the result keyed by VSS id;
  - the lookup by VSS id.
- `SearchDto` (`src/bmw/search/dto.rs`) holds the request and response types and the JSON text serde writes for a request, with a reader that reads it back.
- `LegacySearch` (`src/search.rs`) is the older search path:
  - its own URL builder and request types;
  - a probe with a full page;
  - a plan that panics when there is nothing to fetch;
  - a loop that keeps the vehicles of the pages that answered and reports the others.
- `Vehicles` (`src/vehicle.rs`) covers the vehicle accessors:
  - the details link, the offer price and the discount;
  - case-insensitive matching of equipment names.
- `Legacy` (`src/legacy.rs`) covers the listing: the equipment filter, the price comparator and the stable sort.
- `Config` (`src/config.rs`) holds the configuration as plain data.
- Helper modules stand in for the libraries the program calls:
  - `Prelude`: `u32`, `Option`, `Result`, `Ordering`;
  - `RangeStep`: `(a..b).step_by(n)`;
  - `Text`: ASCII lower-casing, `contains`, and the decimal form of integers;
  - `UrlQuery`: `Url::parse_with_params` for unreserved characters;
  - `Json`: serde_json string literals and arrays.

HTTP is a parameter. An `Upstream` is a function from the request number and
the page asked for to the response or a fetch error. Request 0 is the probe;
request `i + 1` is the `i`-th planned page. `buffer_unordered` delivers pages in
an order the model does not fix. The loops pick the next finished page
nondeterministically, and their contracts hold for every arrival order.

## Model

| member | source | states |
|---|---|---|
| BmwSearch.BuildSearchUrlReads | src/bmw/search/mod.rs:105-134 | Reading the built URL back gives the base URL of the condition, `maxResults` = min(max_result, 50) and `startIndex` = the given index or 0 |
| BmwSearch.BuildSearchUrlBase | src/bmw/search/mod.rs:110-113 | The URL starts with the base URL of its condition, and the new-car and used-car bases differ |
| BmwSearch.BuildSearchUrlText | src/bmw/search/mod.rs:115-133 | The URL text is base + `?brand=BMW&maxResults=` + capped size + `&startIndex=` + index, 0 when none is given |
| BmwSearch.BuildSearchUrlDefaults | src/bmw/search/mod.rs:212-219 | New, 42, no index gives `...stocklocator?brand=BMW&maxResults=42&startIndex=0` |
| BmwSearch.BuildSearchUrlCapped | src/bmw/search/mod.rs:235-243 | New, 109 gives `maxResults=50` |
| BmwSearch.BuildSearchUrlStartIndex | src/bmw/search/mod.rs:244-252 | New, 42, index 42000 gives `maxResults=42&startIndex=42000` |
| BmwSearch.PostReads | src/bmw/search/mod.rs:136-147 | A page POST carries a URL that reads back as the requested page, and a body that deserialises to the request |
| BmwSearch.GetTotalCount | src/bmw/search/mod.rs:159-169 | The total is the probe's `metadata.totalCount`, or 0 when the probe fails |
| BmwSearch.ProbeQuery | src/bmw/search/mod.rs:159-160 | The probe asks for one result from index 0, with the search body |
| BmwSearch.EffectiveMaxIsMin | src/bmw/search/mod.rs:183-186 | The effective max is min(total, limit), and the total when there is no limit |
| BmwSearch.CallsEmptyIff | src/bmw/search/mod.rs:183-190 | No call is planned if and only if the effective max is 0 |
| BmwSearch.CallsShape | src/bmw/search/mod.rs:192-203 | Call i asks for min(max, 50) results from index i·step, below max, with the configured condition and the body |
| BmwSearch.CallsCount | src/bmw/search/mod.rs:192-196 | There are ceil(max / step) calls |
| BmwSearch.CallsDisjoint | src/bmw/search/mod.rs:195-203 | The calls' windows are in order and do not overlap |
| BmwSearch.CallsCover | src/bmw/search/mod.rs:178-204 | Every index below the effective max lies in some call's window |
| BmwSearch.CallsExamples | src/bmw/search/mod.rs:178-204 | 120 results give calls at 0, 50 and 100 of size 50; a limit of 30 gives one call of 30; a total of 0 gives none |
| BmwSearch.SearchByVssId | src/bmw/search/mod.rs:76-101 | An error is passed on; an empty page gives `None`; otherwise the first hit's vehicle |
| BmwSearch.VssIdLookupQuery | src/bmw/search/mod.rs:81-91 | The lookup asks for one result from index 0, with a body that holds only the VSS id filter and no results context |
| BmwSearch.HitVehicles | src/bmw/search/mod.rs:61-62 | The vehicles of a page are its hits' vehicles, in order |
| BmwSearch.AllVehiclesIff | src/bmw/search/mod.rs:58-65 | A vehicle is gathered if and only if some page holds it |
| BmwSearch.FetchPages | src/bmw/search/mod.rs:47-67 | Fails if and only if some planned page fails; otherwise, whatever the arrival order, it holds the vehicles of all pages, each exactly as often as the pages give it |
| BmwSearch.IndexByVssId | src/bmw/search/mod.rs:69-70 | The keys are the ids of the vehicles; each entry is a vehicle with that id, and the last vehicle with an id wins |
| BmwSearch.Search | src/bmw/search/mod.rs:25-72 | Errs if and only if a page of the plan fails; otherwise it maps exactly the gathered ids to gathered vehicles carrying them |
| SearchDto.SerializeRoundTrip | src/bmw/search/dto.rs:5-53 | Deserialising the serialised request gives the request back |
| SearchDto.SerializeInjective | src/bmw/search/dto.rs:5-53 | Different requests serialise to different text |
| SearchDto.RequestRoundTrip | src/bmw/search/dto.rs:5-11 | A request reads back from its JSON whatever text follows, with `resultsContext` omitted when absent |
| SearchDto.ResultsTailRoundTrip | src/bmw/search/dto.rs:9-10 | The optional results context reads back, and its key is absent when it is `None` |
| SearchDto.ContextRoundTrip | src/bmw/search/dto.rs:13-18 | A search context reads back from its JSON |
| SearchDto.ModelOrNullRoundTrip | src/bmw/search/dto.rs:15 | A missing model is written as `null` and reads back |
| SearchDto.VssIdsTailRoundTrip | src/bmw/search/dto.rs:16-17 | The optional `vssIds` reads back, and its key is absent when it is `None` |
| SearchDto.ModelRoundTrip | src/bmw/search/dto.rs:20-24 | A model reads back from `{"marketingModelRange":...}` |
| SearchDto.FilterRoundTrip | src/bmw/search/dto.rs:26-29 | A filter reads back from `{"value":[...]}` |
| SearchDto.ResultsContextRoundTrip | src/bmw/search/dto.rs:31-34 | A results context reads back from `{"sort":[...]}` |
| SearchDto.SortRoundTrip | src/bmw/search/dto.rs:36-40 | A sort reads back from `{"by":...,"order":...}` |
| SearchDto.SortByRoundTrip | src/bmw/search/dto.rs:42-46 | `Price` is written `"PRICE"` and reads back |
| SearchDto.SortOrderRoundTrip | src/bmw/search/dto.rs:48-53 | `Asc` and `Desc` are written `"ASC"` and `"DESC"` and read back |
| SearchDto.SortExamples | src/bmw/search/dto.rs:36-53 | A price sort is written `{"by":"PRICE","order":"ASC"}` or `{"by":"PRICE","order":"DESC"}` |
| SearchDto.ContextOfOneRange | src/bmw/search/dto.rs:13-29 | A context with one model range that needs no escaping and no ids is written `{"model":{"marketingModelRange":{"value":["<range>"]}}}`, without a `vssIds` key |
| SearchDto.SerializeOneContext | src/bmw/search/dto.rs:5-11 | A request with one context and one price sort is written `{"searchContext":[<context>],"resultsContext":{"sort":[<sort>]}}` |
| SearchDto.SerializeExamples | src/bmw/search/mod.rs:254-302 | The ascending and descending test requests serialise to the tests' expected text, given as its pieces |
| Json.QuoteRoundTrip | src/bmw/search/dto.rs:27-28 | A string literal with serde_json's escapes reads back as its string, whatever follows |
| Json.QuoteInjective | src/bmw/search/dto.rs:27-28 | Distinct strings have distinct literals |
| Json.ArrayRoundTrip | src/bmw/search/dto.rs:27-28 | An array reads back element by element when each element does |
| Text.DecimalRoundTrip | src/bmw/search/mod.rs:119-129 | The decimal text of an integer parses back to it |
| UrlQuery.UrlRoundTrip | src/bmw/search/mod.rs:133 | A URL with plain query parameters splits back into its base and its parameters |
| RangeStep.StepByValues | src/bmw/search/mod.rs:195-196 | The k-th start is k·step, every start is below the end, and the last start is less than one step below the end |
| RangeStep.StepByLength | src/bmw/search/mod.rs:195-196 | `(0..max).step_by(step)` yields ceil(max / step) values |
| RangeStep.StepByDisjoint | src/bmw/search/mod.rs:195-196 | Consecutive windows `[start, start + step)` do not overlap |
| RangeStep.StepByCovers | src/bmw/search/mod.rs:195-196 | Every value below the end lies in some window |
| LegacySearch.BuildSearchUrlAgrees | src/search.rs:15-37 | The URL is the one of `BmwSearch` for the stock `new_car` selects, so it reads back as the base, the size capped at 50 and the index or 0 |
| LegacySearch.ToJsonInjective | src/search.rs:39-87 | Different request bodies serialise to different text |
| LegacySearch.ToJsonExamples | src/search.rs:236-282 | The bodies of the serialisation tests, and the one `search_cars` sends, are written as the newer path writes its test request |
| LegacySearch.GetTotalCount | src/search.rs:184-191 | The total is the probe's `metadata.totalCount`, or 0 on any error |
| LegacySearch.ProbeQuery | src/search.rs:184-185 | The probe asks for a full page of 50 from index 0 |
| LegacySearch.EffectiveMaxIsMin | src/search.rs:128-132 | The effective max is min(count, total) |
| LegacySearch.ChunksShape | src/search.rs:134-137 | `step_by` panics exactly when the max is 0; otherwise there are ceil(max / step) chunks, the k-th at k·step and below max |
| LegacySearch.ChunksCover | src/search.rs:134-137 | Every index below the max lies in some chunk's window |
| LegacySearch.HitVehicles | src/search.rs:149 | The vehicles of a page are its hits' vehicles, in order |
| LegacySearch.Gather | src/search.rs:143-157 | Whatever the arrival order, the result holds the vehicles of every answered page and one report per failed page, each as often as the pages give it |
| LegacySearch.SearchCars | src/search.rs:109-160 | Panics if and only if the effective max is 0; otherwise it returns every vehicle of the answered chunk pages and reports every failed page |
| LegacySearch.AllOrNothing | src/search.rs:143-157 | When all pages answer nothing is reported; when all fail no vehicle is returned and every page is reported |
| Vehicles.LinkRoundTrip | src/vehicle.rs:31-40 | The link names the new-car locator if and only if the usage state is `NEW`, and it ends with the VSS id |
| Vehicles.GetPrice | src/vehicle.rs:42-52 | The price is present if and only if there are offer prices and the first has a gross price, and it is that price |
| Vehicles.GetDiscountPercentage | src/vehicle.rs:54-58 | Present if and only if the price is; then it is (gross − offer) / gross · 100 |
| Vehicles.PriceExamples | src/vehicle.rs:230-411 | The get_price and get_discount_percentage test cases, including 75 against 100 giving 25 |
| Vehicles.HasEquipmentNameLikeIff | src/vehicle.rs:60-77 | True if and only if the name is non-empty and some name of some equipment, lower-cased, contains the lower-cased name |
| Vehicles.AnyEquipmentNameContainsIff | src/vehicle.rs:67-76 | The nested `any` holds if and only if some equipment has such a name |
| Vehicles.AnyNameContainsIff | src/vehicle.rs:72-75 | The inner `any` holds if and only if some name contains the query at some offset |
| Vehicles.EmptyNameMatchesNothing | src/vehicle.rs:61-63 | The empty name matches no vehicle |
| Vehicles.HasEquipmentNameLikeIgnoresCase | src/vehicle.rs:65-75 | Names equal up to case match the same vehicles |
| Vehicles.HasEquipmentNameLikeLower | src/vehicle.rs:65 | Lower-casing the name first changes nothing |
| Vehicles.AllNamesLikeIff | src/vehicle.rs:84-86 | `all` holds if and only if every name is like some equipment name |
| Vehicles.HasEquipmentNamesIff | src/vehicle.rs:79-87 | True if and only if every given name matches, so an empty list is accepted and a list holding `""` is not |
| Vehicles.EquipmentExamples | src/vehicle.rs:413-655 | The has_equipment_name_like tests (a name starting with the query matches it, a name lacking it or an empty query does not, a vehicle without equipment matches nothing) and the has_equipment_names tests with no equipment or no names (a requested name fails, the empty list passes) |
| Vehicles.EquipmentNamesFound | src/vehicle.rs:505-566 | With the three equipments of the tests, "Test" and "My equipment" are both found |
| Vehicles.EquipmentNameNotFound | src/vehicle.rs:656-718 | With those equipments "Not found" matches no name, so asking for "Test" and "Not found" fails |
| Text.AbsentChar | src/vehicle.rs:75 | A needle holding a character the haystack lacks is not contained in it |
| Text.LowerAbsent | src/vehicle.rs:75 | Lower-casing yields a lower-case letter only where the text holds it in one case or the other |
| Legacy.VehicleMatchesEquipmentIff | src/legacy.rs:58-64 | Passes if and only if no filter is configured or every configured name matches; a filter holding `""` keeps nothing |
| Legacy.FilterMatching | src/legacy.rs:51-53 | Each vehicle occurs as often as it was found if it passes, otherwise not at all |
| Legacy.FilterMatchingKeepsOrder | src/legacy.rs:51-54 | Filtering keeps the relative order of vehicles that tie under the comparator |
| Legacy.ComparatorsArePreorders | src/legacy.rs:66-72 | `sort_by_price` and the None-last comparator are total preorders that tie exactly on equal prices |
| Legacy.SortByPriceNoneFirst | src/legacy.rs:66-72 | As written, a vehicle without a price compares `Less` than one with a price |
| Legacy.SortByPriceNoneLastOrder | src/legacy.rs:66 | The corrected comparator puts an unpriced vehicle after a priced one, and agrees with `sort_by_price` on priced vehicles |
| Legacy.SortedByPermutes | src/legacy.rs:54 | `sorted_by` returns a permutation of its input |
| Legacy.SortedByOrdered | src/legacy.rs:54 | Under a total preorder the result is in non-decreasing order |
| Legacy.SortedByStable | src/legacy.rs:54 | Elements that tie keep their input order |
| Legacy.FilterAndSortVehiclesSpec | src/legacy.rs:46-56 | The result keeps exactly the passing vehicles, with multiplicity, in price order, stable among equal prices; with no filter it is a permutation of what was found |
| Legacy.UnpricedFirst | src/legacy.rs:66-72 | As written, every unpriced vehicle comes before every priced one |
| Legacy.FilterAndSortVehiclesNoneLastSpec | src/legacy.rs:66 | With the documented ordering, the same vehicles are kept, in ascending price and stable, with every unpriced vehicle after every priced one |
| Legacy.UnpricedOrderExample | src/legacy.rs:66-72 | A vehicle priced 10 and an unpriced one: as written the unpriced one is listed first, corrected it is listed last |

## Left out

- HTTP is left out: reqwest, status checks and response decoding. A failed
  send, a non-success status and an undecodable body are all one
  `FetchError`, and the upstream is a function of the request number and the
  page asked for.
- The concurrency bound `CONCURRENT_REQUESTS` is left out. Concurrency is
  modelled only as an arbitrary arrival order of the pages; every page is
  requested, and the contracts hold for any order.
- BmwSearch.FetchPages: `try_fold` stops at the first error in arrival
  order. The model states only that an error is returned whenever some page
  fails, not which pages were still awaited.
- BmwSearch.Search: the contract does not say which vehicle wins when two
  pages carry the same id. That depends on the arrival order;
  `BmwSearch.IndexByVssId` states it for a given order.
- BmwSearch.SearchByVssId: the fallback arm `Unexpected response format`
  (mod.rs:99) cannot be reached once the first two arms are tried, and has
  no counterpart.
- URL percent-encoding and a failing `Url::parse` are left out. The base
  URLs and every parameter consist of unreserved characters, so neither
  arises.
- Vehicles.GetPrice: prices are exact reals rather than `f32`; rounding
  and NaN are not modelled.
- Vehicles.GetDiscountPercentage: with a zero gross price the result is
  only `NonFinite`, standing for the `f32` infinity or NaN.
- Legacy.ComparatorsArePreorders: `partial_cmp` returns `None` only for
  NaN. With reals that cannot happen, so the `unwrap_or(Equal)` arm is not
  modelled.
- Vehicles.HasEquipmentNameLike: `to_lowercase` is modelled as ASCII
  lower-casing; Unicode case mapping is left out.
- Hash maps are modelled as the sequence of their values in iteration order:
  equipments, localized names, offer prices, and the found vehicles the
  listing reads. That order is arbitrary in the source and is a parameter
  here.
- SearchDto.SerializeExamples: the expected text of the JSON tests
  (mod.rs:254-302, search.rs:236-282) is stated as a concatenation of short
  literal pieces, one per key plus the model range and the sort, rather than
  as one literal. Comparing literals of that length is too costly for the
  verifier.
- Deserialising responses (`SearchResponse`, `Hit`, `Metadata`) is left out.
  Responses are values; the `score` of a legacy hit is an `f32` that
  nothing reads.
- Configuration loading (clap), printing of the header, text and JSON
  listings, `main`, `app.rs` and the `eprintln!` diagnostics are I/O and are
  left out.
- `legacy.rs` calls `configuration.equipment_names()`, but `config.rs` has
  only the field `filter_equipment`. The model reads that field.

## Findings

| source | as written | input that shows it | evidently intended | confidence | as-written member | corrected member |
|---|---|---|---|---|---|---|
| src/legacy.rs:66-72 | `Option::partial_cmp` orders `None` before every `Some`, so vehicles without a price are listed first | a vehicle priced 10 and one with no offer prices | ascending price with vehicles without a price last, as the doc comment at line 66 says | not executed | `Legacy.UnpricedFirst` | `Legacy.FilterAndSortVehiclesNoneLastSpec` |
