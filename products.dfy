/**
 * `GET /api/products`: turns the query string into a sparse filter record,
 * hands it to the catalogue query (`getPublicProducts`, a collaborator that is
 * not part of this model) and wraps the rows, or answers 500 if it throws.
 */
module Products {
  import opened Js
  import opened Http

  /** A decoded query string: its name/value pairs in order. */
  type Query = seq<(string, string)>

  /** `searchParams.get(name)`: the first value given for `name`, or null. */
  function SearchParam(q: Query, name: string): (r: Option<string>)
    ensures r.None? <==> forall i :: 0 <= i < |q| ==> q[i].0 != name
    ensures r.Some? ==> exists i :: 0 <= i < |q| && q[i] == (name, r.value)
                                    && forall j :: 0 <= j < i ==> q[j].0 != name
  {
    if q == [] then None
    else if q[0].0 == name then
      assert q[0] == (name, q[0].1);
      Some(q[0].1)
    else
      var r := SearchParam(q[1..], name);
      assert forall i :: 1 <= i < |q| ==> q[1..][i - 1] == q[i];
      r
  }

  /**
   * The record passed to `getPublicProducts`; `None` stands for a member that
   * is `undefined`. `N` is whatever `Number.parseFloat` returns.
   */
  datatype Filters<N> = Filters(
    category: Option<string>,
    search: Option<string>,
    minPrice: Option<N>,
    maxPrice: Option<N>,
    featured: Option<bool>)

  /** The query parameters the handler reads. */
  const FilterKeys: set<string> := {"category", "search", "minPrice", "maxPrice", "featured"}

  /** A falsy parameter (null or empty) becomes absent; any other is kept. */
  function OrUndefined(raw: Option<string>): Option<string> {
    match raw
    case Some(s) => if Truthy(Str(s)) then raw else None
    case None => None
  }

  /** A truthy parameter is handed to `parseFloat`; a falsy one gives an absent bound. */
  function PriceBound<N>(raw: Option<string>, parseFloat: string -> N): Option<N> {
    match raw
    case Some(s) => if Truthy(Str(s)) then Some(parseFloat(s)) else None
    case None => None
  }

  /** `true` when the parameter is strictly equal to "true"; otherwise absent, never `false`. */
  function FeaturedFlag(raw: Option<string>): Option<bool> {
    var isTrue := raw.Some? && StrictEquals(Str(raw.value), Str("true"));
    if isTrue then Some(true) else None
  }

  /** The `filters` object literal built from the query string. */
  function ExtractFilters<N>(q: Query, parseFloat: string -> N): (f: Filters<N>)
    ensures f.category != Some("") && f.search != Some("")
    ensures f.featured != Some(false)
    ensures f.minPrice.Some? ==> SearchParam(q, "minPrice").Some?
    ensures f.maxPrice.Some? ==> SearchParam(q, "maxPrice").Some?
  {
    Filters(
      OrUndefined(SearchParam(q, "category")),
      OrUndefined(SearchParam(q, "search")),
      PriceBound(SearchParam(q, "minPrice"), parseFloat),
      PriceBound(SearchParam(q, "maxPrice"), parseFloat),
      FeaturedFlag(SearchParam(q, "featured")))
  }

  /** The whole handler. */
  function Get<N>(q: Query, parseFloat: string -> N, getPublicProducts: Filters<N> -> Outcome<JsValue>): (r: Response)
    ensures r.status in {StatusOk, StatusServerError}
    ensures r.status == StatusOk <==> getPublicProducts(ExtractFilters(q, parseFloat)).Returned?
  {
    match getPublicProducts(ExtractFilters(q, parseFloat))
    case Returned(products) => Response(StatusOk, Object([("products", products)]))
    case Threw => Error(StatusServerError, InternalServerError)
  }

  // ---------------------------------------------------------------------------
  // Properties of the filter record

  /** An absent or empty `category`/`search` is absent; any other value passes unchanged. */
  lemma TextFilters<N>(q: Query, parseFloat: string -> N)
    ensures var f := ExtractFilters(q, parseFloat);
            && (f.category.None? <==> SearchParam(q, "category") in {None, Some("")})
            && (f.category.Some? ==> f.category == SearchParam(q, "category"))
            && (f.search.None? <==> SearchParam(q, "search") in {None, Some("")})
            && (f.search.Some? ==> f.search == SearchParam(q, "search"))
  {
    var f := ExtractFilters(q, parseFloat);
    assert f.category == OrUndefined(SearchParam(q, "category"));
    assert f.search == OrUndefined(SearchParam(q, "search"));
    OrUndefinedKeepsNonEmpty(SearchParam(q, "category"));
    OrUndefinedKeepsNonEmpty(SearchParam(q, "search"));
  }

  lemma OrUndefinedKeepsNonEmpty(raw: Option<string>)
    ensures OrUndefined(raw).None? <==> raw in {None, Some("")}
    ensures OrUndefined(raw).Some? ==> OrUndefined(raw) == raw
  {
  }

  /** `featured` is `true` exactly when the parameter is "true", and is never `false`. */
  lemma FeaturedOnlyTrue<N>(q: Query, parseFloat: string -> N)
    ensures var f := ExtractFilters(q, parseFloat);
            && f.featured != Some(false)
            && (f.featured == Some(true) <==> SearchParam(q, "featured") == Some("true"))
  {
  }

  /**
   * A price bound is present exactly when its parameter is a non-empty string,
   * and then it is `parseFloat` of that string, numeric or not: there is no
   * validation here.
   */
  lemma PriceBounds<N>(q: Query, parseFloat: string -> N)
    ensures var f := ExtractFilters(q, parseFloat);
            var lo, hi := SearchParam(q, "minPrice"), SearchParam(q, "maxPrice");
            && (f.minPrice.Some? <==> lo.Some? && lo.value != "")
            && (f.minPrice.Some? ==> f.minPrice.value == parseFloat(lo.value))
            && (f.maxPrice.Some? <==> hi.Some? && hi.value != "")
            && (f.maxPrice.Some? ==> f.maxPrice.value == parseFloat(hi.value))
  {
  }

  /** "0" is a truthy string, so `?minPrice=0` gives a present bound. */
  lemma ZeroPriceIsPresent<N>(parseFloat: string -> N)
    ensures ExtractFilters([("minPrice", "0")], parseFloat).minPrice == Some(parseFloat("0"))
  {
  }

  /** Looking up `name` is unaffected by a pair under another name, wherever it sits. */
  lemma {:induction false} SearchParamSkips(q1: Query, q2: Query, other: (string, string), name: string)
    requires other.0 != name
    ensures SearchParam(q1 + [other] + q2, name) == SearchParam(q1 + q2, name)
  {
    var lhs, rhs := q1 + [other] + q2, q1 + q2;
    if q1 == [] {
      assert lhs == [other] + q2 && lhs[1..] == q2 && rhs == q2;
    } else {
      assert lhs[0] == q1[0] && rhs[0] == q1[0];
      if q1[0].0 != name {
        assert lhs[1..] == q1[1..] + [other] + q2;
        assert rhs[1..] == q1[1..] + q2;
        SearchParamSkips(q1[1..], q2, other, name);
      }
    }
  }

  /** A parameter other than the five filter keys (`limit`, say) has no effect on the filters. */
  lemma IgnoresOtherParams<N>(q1: Query, q2: Query, other: (string, string), parseFloat: string -> N)
    requires other.0 !in FilterKeys
    ensures ExtractFilters(q1 + [other] + q2, parseFloat) == ExtractFilters(q1 + q2, parseFloat)
  {
    SearchParamSkips(q1, q2, other, "category");
    SearchParamSkips(q1, q2, other, "search");
    SearchParamSkips(q1, q2, other, "minPrice");
    SearchParamSkips(q1, q2, other, "maxPrice");
    SearchParamSkips(q1, q2, other, "featured");
  }

  /** A repeated parameter: the first occurrence decides. */
  lemma {:induction false} FirstOccurrenceWins(q1: Query, q2: Query, name: string, value: string)
    requires forall i :: 0 <= i < |q1| ==> q1[i].0 != name
    ensures SearchParam(q1 + [(name, value)] + q2, name) == Some(value)
  {
    if q1 != [] {
      assert (q1 + [(name, value)] + q2)[1..] == q1[1..] + [(name, value)] + q2;
      assert forall i :: 0 <= i < |q1[1..]| ==> q1[1..][i] == q1[i + 1];
      FirstOccurrenceWins(q1[1..], q2, name, value);
    }
  }

  // ---------------------------------------------------------------------------
  // Properties of the response

  /**
   * Success answers 200 with `{ products }` holding exactly the collaborator's
   * result; a thrown error answers 500 with the generic message. No other
   * status arises: a malformed price is not a client error here.
   */
  lemma GetResponse<N>(q: Query, parseFloat: string -> N, getPublicProducts: Filters<N> -> Outcome<JsValue>)
    ensures var r := Get(q, parseFloat, getPublicProducts);
            match getPublicProducts(ExtractFilters(q, parseFloat))
            case Returned(products) => r.status == StatusOk && r.body == Object([("products", products)])
            case Threw => r == Error(StatusServerError, InternalServerError)
    ensures Get(q, parseFloat, getPublicProducts).status in {StatusOk, StatusServerError}
  {
  }

  /** The catalogue query is consulted only on the filter record built from the query. */
  lemma GetDependsOnlyOnFilters<N>(q: Query, parseFloat: string -> N, g1: Filters<N> -> Outcome<JsValue>, g2: Filters<N> -> Outcome<JsValue>)
    requires g1(ExtractFilters(q, parseFloat)) == g2(ExtractFilters(q, parseFloat))
    ensures Get(q, parseFloat, g1) == Get(q, parseFloat, g2)
  {
  }
}
