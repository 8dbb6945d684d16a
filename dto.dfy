/** The request and response bodies of the stock-locator search endpoint,
    and the JSON text serde writes for a request: fields under their renamed
    keys in declaration order, `resultsContext` and `vssIds` left out when
    absent, `model` written as `null` when absent, the enums as their
    upper-case names. A reader for exactly that text is proved to invert
    the writer, so the writer loses nothing and two requests never share a
    text. */
module SearchDto {
  import opened Prelude
  import opened Json
  import opened Vehicles
  import Text

  datatype FilterWithValues = FilterWithValues(value: seq<string>)

  datatype SearchModel = SearchModel(marketingModelRange: FilterWithValues)

  datatype SearchContext = SearchContext(model: Option<SearchModel>, vssIds: Option<FilterWithValues>)

  datatype SortBy = Price

  datatype SortOrder = Asc | Desc

  datatype Sort = Sort(sortBy: SortBy, order: SortOrder)  // `sortBy` is the field `by`

  datatype ResultsContext = ResultsContext(sort: seq<Sort>)

  datatype SearchRequest = SearchRequest(searchContext: seq<SearchContext>, resultsContext: Option<ResultsContext>)

  datatype Hit = Hit(vehicle: Vehicle)

  datatype Metadata = Metadata(totalCount: u32)

  datatype SearchResponse = SearchResponse(hits: seq<Hit>, metadata: Metadata)

  // ---------------------------------------------------------------------
  // Writing
  // ---------------------------------------------------------------------

  function SortByJson(sortBy: SortBy): string {
    match sortBy
    case Price => "\"PRICE\""
  }

  function SortOrderJson(order: SortOrder): string {
    match order
    case Asc => "\"ASC\""
    case Desc => "\"DESC\""
  }

  function SortJson(sort: Sort): string {
    "{\"by\":" + SortByJson(sort.sortBy) + ",\"order\":" + SortOrderJson(sort.order) + "}"
  }

  function FilterJson(filter: FilterWithValues): string {
    "{\"value\":" + Array(filter.value, Quote) + "}"
  }

  function ModelJson(model: SearchModel): string {
    "{\"marketingModelRange\":" + FilterJson(model.marketingModelRange) + "}"
  }

  function ModelOrNullJson(model: Option<SearchModel>): string {
    match model
    case None => "null"
    case Some(m) => ModelJson(m)
  }

  /** What follows the model in a context: the `vssIds` key only when there
      are ids, then the closing brace. */
  function VssIdsTailJson(vssIds: Option<FilterWithValues>): string {
    match vssIds
    case None => "}"
    case Some(f) => ",\"vssIds\":" + FilterJson(f) + "}"
  }

  function ContextJson(context: SearchContext): string {
    "{\"model\":" + ModelOrNullJson(context.model) + VssIdsTailJson(context.vssIds)
  }

  function ResultsContextJson(results: ResultsContext): string {
    "{\"sort\":" + Array(results.sort, SortJson) + "}"
  }

  /** What follows the contexts in a request: the `resultsContext` key only
      when there is one, then the closing brace. */
  function ResultsTailJson(results: Option<ResultsContext>): string {
    match results
    case None => "}"
    case Some(r) => ",\"resultsContext\":" + ResultsContextJson(r) + "}"
  }

  /** `serde_json::to_string(&request)`. */
  function Serialize(request: SearchRequest): string {
    "{\"searchContext\":" + Array(request.searchContext, ContextJson) + ResultsTailJson(request.resultsContext)
  }

  // ---------------------------------------------------------------------
  // Reading
  // ---------------------------------------------------------------------

  function ParseSortBy(s: string): (r: Option<(SortBy, string)>)
    ensures r.Some? ==> |r.value.1| < |s|
  {
    var t :- Expect("\"PRICE\"", s);
    Some((Price, t))
  }

  function ParseSortOrder(s: string): (r: Option<(SortOrder, string)>)
    ensures r.Some? ==> |r.value.1| < |s|
  {
    match Expect("\"ASC\"", s)
    case Some(t) => Some((Asc, t))
    case None =>
      var t :- Expect("\"DESC\"", s);
      Some((Desc, t))
  }

  function ParseSort(s: string): (r: Option<(Sort, string)>)
    ensures r.Some? ==> |r.value.1| < |s|
  {
    var t :- Expect("{\"by\":", s);
    var sortBy :- ParseSortBy(t);
    var t :- Expect(",\"order\":", sortBy.1);
    var order :- ParseSortOrder(t);
    var t :- Expect("}", order.1);
    Some((Sort(sortBy.0, order.0), t))
  }

  function ParseFilter(s: string): (r: Option<(FilterWithValues, string)>)
    ensures r.Some? ==> |r.value.1| < |s|
  {
    var t :- Expect("{\"value\":", s);
    var values :- ParseArray(t, ParseQuoted);
    var t :- Expect("}", values.1);
    Some((FilterWithValues(values.0), t))
  }

  function ParseModel(s: string): (r: Option<(SearchModel, string)>)
    ensures r.Some? ==> |r.value.1| < |s|
  {
    var t :- Expect("{\"marketingModelRange\":", s);
    var filter :- ParseFilter(t);
    var t :- Expect("}", filter.1);
    Some((SearchModel(filter.0), t))
  }

  function ParseModelOrNull(s: string): (r: Option<(Option<SearchModel>, string)>)
    ensures r.Some? ==> |r.value.1| < |s|
  {
    match Expect("null", s)
    case Some(t) => Some((None, t))
    case None =>
      var m :- ParseModel(s);
      Some((Some(m.0), m.1))
  }

  function ParseVssIdsTail(s: string): (r: Option<(Option<FilterWithValues>, string)>)
    ensures r.Some? ==> |r.value.1| < |s|
  {
    match Expect("}", s)
    case Some(t) => Some((None, t))
    case None =>
      var t :- Expect(",\"vssIds\":", s);
      var filter :- ParseFilter(t);
      var t :- Expect("}", filter.1);
      Some((Some(filter.0), t))
  }

  function ParseContext(s: string): (r: Option<(SearchContext, string)>)
    ensures r.Some? ==> |r.value.1| < |s|
  {
    var t :- Expect("{\"model\":", s);
    var model :- ParseModelOrNull(t);
    var ids :- ParseVssIdsTail(model.1);
    Some((SearchContext(model.0, ids.0), ids.1))
  }

  function ParseResultsContext(s: string): (r: Option<(ResultsContext, string)>)
    ensures r.Some? ==> |r.value.1| < |s|
  {
    var t :- Expect("{\"sort\":", s);
    var sorts :- ParseArray(t, ParseSort);
    var t :- Expect("}", sorts.1);
    Some((ResultsContext(sorts.0), t))
  }

  function ParseResultsTail(s: string): (r: Option<(Option<ResultsContext>, string)>)
    ensures r.Some? ==> |r.value.1| < |s|
  {
    match Expect("}", s)
    case Some(t) => Some((None, t))
    case None =>
      var t :- Expect(",\"resultsContext\":", s);
      var results :- ParseResultsContext(t);
      var t :- Expect("}", results.1);
      Some((Some(results.0), t))
  }

  function ParseRequest(s: string): (r: Option<(SearchRequest, string)>)
    ensures r.Some? ==> |r.value.1| < |s|
  {
    var t :- Expect("{\"searchContext\":", s);
    var contexts :- ParseArray(t, ParseContext);
    var results :- ParseResultsTail(contexts.1);
    Some((SearchRequest(contexts.0, results.0), results.1))
  }

  /** Reads a whole request body; nothing may follow it. */
  function Deserialize(s: string): Option<SearchRequest> {
    var r :- ParseRequest(s);
    if r.1 == "" then Some(r.0) else None
  }

  // ---------------------------------------------------------------------
  // Round trip
  // ---------------------------------------------------------------------

  lemma SortByRoundTrip(sortBy: SortBy, rest: string)
    ensures ParseSortBy(SortByJson(sortBy) + rest) == Some((sortBy, rest))
  {
    ExpectLiteral(SortByJson(sortBy), rest);
  }

  lemma SortOrderRoundTrip(order: SortOrder, rest: string)
    ensures ParseSortOrder(SortOrderJson(order) + rest) == Some((order, rest))
  {
    ExpectLiteral(SortOrderJson(order), rest);
    if order == Desc {
      ExpectMismatch("\"ASC\"", SortOrderJson(order) + rest, 1);
    }
  }

  lemma SortRoundTrip(sort: Sort, rest: string)
    ensures ParseSort(SortJson(sort) + rest) == Some((sort, rest))
  {
    var sortBy, order := SortByJson(sort.sortBy), SortOrderJson(sort.order);
    var s := SortJson(sort) + rest;
    assert s == "{\"by\":" + (sortBy + (",\"order\":" + (order + ("}" + rest))));
    ExpectLiteral("{\"by\":", sortBy + (",\"order\":" + (order + ("}" + rest))));
    SortByRoundTrip(sort.sortBy, ",\"order\":" + (order + ("}" + rest)));
    ExpectLiteral(",\"order\":", order + ("}" + rest));
    SortOrderRoundTrip(sort.order, "}" + rest);
    ExpectLiteral("}", rest);
  }

  lemma SortsRead(sorts: seq<Sort>)
    ensures Consumes(ParseSort) && Reads(ParseSort, SortJson, sorts)
  {
    forall x, rest | x in sorts
      ensures ParseSort(SortJson(x) + rest) == Some((x, rest))
    {
      SortRoundTrip(x, rest);
    }
  }

  lemma FilterRoundTrip(filter: FilterWithValues, rest: string)
    ensures ParseFilter(FilterJson(filter) + rest) == Some((filter, rest))
  {
    var values := Array(filter.value, Quote);
    assert FilterJson(filter) + rest == "{\"value\":" + (values + ("}" + rest));
    ExpectLiteral("{\"value\":", values + ("}" + rest));
    QuotedReadsStrings(filter.value);
    ArrayRoundTrip(filter.value, Quote, ParseQuoted, "}" + rest);
    ExpectLiteral("}", rest);
  }

  lemma ModelRoundTrip(model: SearchModel, rest: string)
    ensures ParseModel(ModelJson(model) + rest) == Some((model, rest))
  {
    var filter := FilterJson(model.marketingModelRange);
    assert ModelJson(model) + rest == "{\"marketingModelRange\":" + (filter + ("}" + rest));
    ExpectLiteral("{\"marketingModelRange\":", filter + ("}" + rest));
    FilterRoundTrip(model.marketingModelRange, "}" + rest);
    ExpectLiteral("}", rest);
  }

  lemma ModelOrNullRoundTrip(model: Option<SearchModel>, rest: string)
    ensures ParseModelOrNull(ModelOrNullJson(model) + rest) == Some((model, rest))
  {
    match model {
      case None =>
        ExpectLiteral("null", rest);
      case Some(m) =>
        ModelRoundTrip(m, rest);
        ExpectMismatch("null", ModelJson(m) + rest, 0);
    }
  }

  lemma VssIdsTailRoundTrip(vssIds: Option<FilterWithValues>, rest: string)
    ensures ParseVssIdsTail(VssIdsTailJson(vssIds) + rest) == Some((vssIds, rest))
  {
    match vssIds {
      case None =>
        ExpectLiteral("}", rest);
      case Some(f) =>
        var s := VssIdsTailJson(vssIds) + rest;
        assert s == ",\"vssIds\":" + (FilterJson(f) + ("}" + rest));
        ExpectMismatch("}", s, 0);
        ExpectLiteral(",\"vssIds\":", FilterJson(f) + ("}" + rest));
        FilterRoundTrip(f, "}" + rest);
        ExpectLiteral("}", rest);
    }
  }

  lemma ContextRoundTrip(context: SearchContext, rest: string)
    ensures ParseContext(ContextJson(context) + rest) == Some((context, rest))
  {
    var model := ModelOrNullJson(context.model);
    var after := VssIdsTailJson(context.vssIds) + rest;
    assert ContextJson(context) + rest == "{\"model\":" + (model + after);
    ExpectLiteral("{\"model\":", model + after);
    ModelOrNullRoundTrip(context.model, after);
    VssIdsTailRoundTrip(context.vssIds, rest);
  }

  lemma ContextsRead(contexts: seq<SearchContext>)
    ensures Consumes(ParseContext) && Reads(ParseContext, ContextJson, contexts)
  {
    forall x, rest | x in contexts
      ensures ParseContext(ContextJson(x) + rest) == Some((x, rest))
    {
      ContextRoundTrip(x, rest);
    }
  }

  lemma ResultsContextRoundTrip(results: ResultsContext, rest: string)
    ensures ParseResultsContext(ResultsContextJson(results) + rest) == Some((results, rest))
  {
    var sorts := Array(results.sort, SortJson);
    assert ResultsContextJson(results) + rest == "{\"sort\":" + (sorts + ("}" + rest));
    ExpectLiteral("{\"sort\":", sorts + ("}" + rest));
    SortsRead(results.sort);
    ArrayRoundTrip(results.sort, SortJson, ParseSort, "}" + rest);
    ExpectLiteral("}", rest);
  }

  lemma ResultsTailRoundTrip(results: Option<ResultsContext>, rest: string)
    ensures ParseResultsTail(ResultsTailJson(results) + rest) == Some((results, rest))
  {
    match results {
      case None =>
        ExpectLiteral("}", rest);
      case Some(r) =>
        var s := ResultsTailJson(results) + rest;
        assert s == ",\"resultsContext\":" + (ResultsContextJson(r) + ("}" + rest));
        ExpectMismatch("}", s, 0);
        ExpectLiteral(",\"resultsContext\":", ResultsContextJson(r) + ("}" + rest));
        ResultsContextRoundTrip(r, "}" + rest);
        ExpectLiteral("}", rest);
    }
  }

  lemma RequestRoundTrip(request: SearchRequest, rest: string)
    ensures ParseRequest(Serialize(request) + rest) == Some((request, rest))
  {
    var contexts := Array(request.searchContext, ContextJson);
    var after := ResultsTailJson(request.resultsContext) + rest;
    Text.AppendAssoc("{\"searchContext\":" + contexts, ResultsTailJson(request.resultsContext), rest);
    Text.AppendAssoc("{\"searchContext\":", contexts, after);
    ExpectLiteral("{\"searchContext\":", contexts + after);
    ContextsRead(request.searchContext);
    ArrayRoundTrip(request.searchContext, ContextJson, ParseContext, after);
    ResultsTailRoundTrip(request.resultsContext, rest);
    assert Expect("{\"searchContext\":", Serialize(request) + rest) == Some(contexts + after);
  }

  /** Every request body reads back as the request it was written from. */
  lemma SerializeRoundTrip(request: SearchRequest)
    ensures Deserialize(Serialize(request)) == Some(request)
  {
    RequestRoundTrip(request, "");
    assert Serialize(request) + "" == Serialize(request);
  }

  /** Two different requests never produce the same body. */
  lemma SerializeInjective(a: SearchRequest, b: SearchRequest)
    requires Serialize(a) == Serialize(b)
    ensures a == b
  {
    SerializeRoundTrip(a);
    SerializeRoundTrip(b);
  }
  // ---------------------------------------------------------------------
  // The text of the serialisation tests
  // ---------------------------------------------------------------------

  /** The request of the serialisation tests: one context for the model
      range `iX2_U10E`, without ids, and one sort by price. */
  function ExampleRequest(order: SortOrder): SearchRequest {
    SearchRequest(
      [SearchContext(Some(SearchModel(FilterWithValues(["iX2_U10E"]))), None)],
      Some(ResultsContext([Sort(Price, order)])))
  }

  /** The sorts are written with `by` before `order`. */
  lemma SortExamples()
    ensures SortJson(Sort(Price, Asc)) == "{\"by\":\"PRICE\",\"order\":\"ASC\"}"
    ensures SortJson(Sort(Price, Desc)) == "{\"by\":\"PRICE\",\"order\":\"DESC\"}"
  {
  }

  /** A context for one model range with nothing to escape is written with
      the range as it is and no `vssIds` key. */
  lemma ContextOfOneRange(id: string)
    requires forall i :: 0 <= i < |id| ==> !Escaped(id[i])
    ensures ContextJson(SearchContext(Some(SearchModel(FilterWithValues([id]))), None)) ==
      "{\"model\":" + "{\"marketingModelRange\":" + "{\"value\":" + "[\"" + id + "\"]" + "}" + "}" + "}"
  {
    EscapePlain(id);
    assert Items([id], Quote) == Quote(id);
    assert Array([id], Quote) == "[\"" + id + "\"]";
    Text.Unnest("{\"model\":", "{\"marketingModelRange\":", "{\"value\":", "[\"", id, "\"]", "}", "}", "}");
  }

  /** The body of a request for one context, sorted by price: the context
      in an array under `searchContext`, then the sort in an array under
      `resultsContext`. */
  lemma SerializeOneContext(context: SearchContext, order: SortOrder)
    ensures Serialize(SearchRequest([context], Some(ResultsContext([Sort(Price, order)])))) ==
      "{\"searchContext\":" + "[" + ContextJson(context) + "]"
      + ",\"resultsContext\":" + "{\"sort\":" + "[" + SortJson(Sort(Price, order)) + "]" + "}" + "}"
  {
    assert Items([context], ContextJson) == ContextJson(context);
    assert Items([Sort(Price, order)], SortJson) == SortJson(Sort(Price, order));
    Text.UnnestTwo("{\"searchContext\":", "[", ContextJson(context), "]",
      ",\"resultsContext\":", "{\"sort\":", "[", SortJson(Sort(Price, order)), "]", "}", "}");
  }

  /** The request of the serialisation tests serialises to their expected
      text, here in its pieces: the one context, with the model range
      `iX2_U10E` and no ids, then the one sort by price. */
  lemma SerializeExamples()
    ensures Serialize(ExampleRequest(Asc)) ==
      "{\"searchContext\":" + "["
      + ("{\"model\":" + "{\"marketingModelRange\":" + "{\"value\":" + "[\"" + "iX2_U10E" + "\"]" + "}" + "}" + "}")
      + "]" + ",\"resultsContext\":" + "{\"sort\":" + "["
      + "{\"by\":\"PRICE\",\"order\":\"ASC\"}"
      + "]" + "}" + "}"
    ensures Serialize(ExampleRequest(Desc)) ==
      "{\"searchContext\":" + "["
      + ("{\"model\":" + "{\"marketingModelRange\":" + "{\"value\":" + "[\"" + "iX2_U10E" + "\"]" + "}" + "}" + "}")
      + "]" + ",\"resultsContext\":" + "{\"sort\":" + "["
      + "{\"by\":\"PRICE\",\"order\":\"DESC\"}"
      + "]" + "}" + "}"
  {
    ContextOfOneRange("iX2_U10E");
    SortExamples();
    SerializeOneContext(ExampleRequest(Asc).searchContext[0], Asc);
    SerializeOneContext(ExampleRequest(Desc).searchContext[0], Desc);
  }
}
