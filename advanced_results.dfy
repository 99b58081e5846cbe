/**
 * The generic list-query middleware `advancedResults(model, populate)`: it
 * turns the query string of a list request into a filter, a projection, a
 * sort, a page window and pagination links, runs the query against the
 * collection and leaves the result envelope in `res.advancedResults`.
 */
module AdvancedResults {
  import opened Wrappers
  import opened Words
  import opened JsText
  import opened Http

  // ---------------------------------------------------------------------------
  // The collection and the query built against it

  /**
   * The collection the middleware was given. What the database does with a
   * filter, a sort string, a projection and a relation to populate is not
   * part of this model: those are the functions carried here. `refuses` holds
   * of a filter one of whose values the schema cannot cast (`?_id=1`, or
   * `?averageCost[lte]=abc` on a number field): awaiting such a query rejects.
   */
  datatype Collection = Collection(
    documents: seq<Document>,
    refuses: Query -> bool,
    matches: (Query, Document) -> bool,
    order: (string, seq<Document>) -> seq<Document>,
    project: (string, Document) -> Document,
    populate: (Param, Document) -> Document)

  /**
   * The chainable query of the data layer, as a value: `find(filter)`, then
   * `select`, `sort`, `populate`, `skip` and `limit`. A limit of 0 means no
   * limit, as in the database.
   */
  datatype QuerySpec = QuerySpec(
    filter: Query,
    select: Option<string>,
    sort: Option<string>,
    populate: Option<Param>,
    skip: int,
    limit: int)

  /** Why a request ends without an envelope. */
  datatype Fault =
    | SplitNotAFunction(param: string)  // `req.query[param].split` on a nested object
    | CastFailure(filter: Query)        // the schema cannot cast a value of the filter
    | NegativeSkip(skip: int)           // the database refuses a negative skip

  /** `model.find(filter)`: nothing selected, sorted or windowed yet. */
  function Find(filter: Query): (q: QuerySpec)
    ensures q.filter == filter && q.select == None && q.sort == None && q.populate == None
    ensures q.skip == 0 && q.limit == 0
  {
    QuerySpec(filter, None, None, None, 0, 0)
  }

  // ---------------------------------------------------------------------------
  // The filter

  /** The control parameters, in the order the middleware deletes them. */
  const RemoveFields: seq<string> := ["select", "sort", "page", "limit"]

  /** The control parameters as a set. */
  function ControlKeys(): (keys: set<string>)
    ensures forall k :: k in keys <==> k in RemoveFields
  {
    {"select", "sort", "page", "limit"}
  }

  /** The query without the control parameters: the filter candidates. */
  function WithoutControlKeys(query: Query): (r: Query)
    ensures forall k :: k in r <==> k in query && k !in RemoveFields
    ensures forall k :: k in r ==> r[k] == query[k]
  {
    query - ControlKeys()
  }

  /**
   * Copies the query and deletes each control parameter from the copy, one
   * after the other; the request's own query is a value and stays as it was.
   */
  method RemoveControlKeys(query: Query) returns (reqQuery: Query)
    ensures forall k :: k in reqQuery <==> k in query && k !in RemoveFields
    ensures forall k :: k in reqQuery ==> reqQuery[k] == query[k]
    ensures reqQuery == WithoutControlKeys(query)
  {
    reqQuery := query;
    for i := 0 to |RemoveFields|
      invariant forall k :: k in reqQuery <==> k in query && k !in RemoveFields[..i]
      invariant forall k :: k in reqQuery ==> reqQuery[k] == query[k]
    {
      reqQuery := reqQuery - {RemoveFields[i]};
    }
    assert RemoveFields[..|RemoveFields|] == RemoveFields;
  }

  /**
   * The operator rewrite applied to a query value: every key and every text,
   * at every depth, gets `$` before each whole comparison word.
   */
  function RewriteParam(p: Param): (r: Param)
    ensures r.Text? <==> p.Text?
    ensures p.Text? ==> r.text == Rewrite(p.text)
    ensures p.Object? ==> forall k :: k in p.fields <==> Rewrite(k) in r.fields
    ensures p.Object? ==> forall k :: k in p.fields ==> r.fields[Rewrite(k)] == RewriteParam(p.fields[k])
    ensures p.Object? ==> forall k :: k in r.fields ==> Restore(k) in p.fields && Rewrite(Restore(k)) == k
  {
    match p
    case Text(s) => Text(Rewrite(s))
    case Object(m) =>
      RewriteInjective();
      Object(map k | k in m :: Rewrite(k) := RewriteParam(m[k]))
  }

  /** The filter handed to `find`: the candidates with their operators rewritten. */
  function Filter(query: Query): (filter: Query)
    ensures forall k :: k in query && k !in RemoveFields ==>
      Rewrite(k) in filter && filter[Rewrite(k)] == RewriteParam(query[k])
    ensures forall k :: k in filter ==>
      Restore(k) in query && Restore(k) !in RemoveFields && Rewrite(Restore(k)) == k
  {
    RewriteParam(Object(WithoutControlKeys(query))).fields
  }

  /** A control parameter never reaches the filter, whatever the query holds. */
  lemma FilterHasNoControlKey(query: Query, k: string)
    requires k in RemoveFields
    ensures k !in Filter(query)
  {
    SingleRun(k);
    assert Rewrite(k) == k;
    RewriteInjective();
  }

  /** Every other parameter reaches the filter, rewritten in key and value. */
  lemma FilterKeepsCandidates(query: Query, k: string)
    requires k in query && k !in RemoveFields
    ensures Rewrite(k) in Filter(query)
    ensures Filter(query)[Rewrite(k)] == RewriteParam(query[k])
  {
  }

  /** A query made only of control parameters filters nothing out: the filter is empty. */
  lemma OnlyControlKeysEmptyFilter(query: Query)
    requires forall k :: k in query ==> k in RemoveFields
    ensures Filter(query) == map[]
  {
    assert WithoutControlKeys(query) == map[];
  }

  // ---------------------------------------------------------------------------
  // Projection and sort

  /** `text.split(",").join(" ")`: each comma becomes a space, nothing else changes. */
  function FieldList(text: string): (r: string)
    ensures IsReplaced(text, r, ',', ' ')
  {
    JoinSplit(text, ',', ' ');
    Join(Split(text, ','), ' ')
  }

  /** The projection: the field list of a truthy `select`, or none. */
  function SelectClause(query: Query): (r: Result<Option<string>, Fault>)
    ensures !Truthy(Get(query, "select")) ==> r == Success(None)
    ensures Truthy(Get(query, "select")) && query["select"].Text? ==>
      r.Success? && r.value.Some? && IsReplaced(query["select"].text, r.value.value, ',', ' ')
    ensures r.Failure? <==> "select" in query && query["select"].Object?
  {
    var p := Get(query, "select");
    if !Truthy(p) then Success(None)
    else match p.value
      case Text(s) => Success(Some(FieldList(s)))
      case Object(_) => Failure(SplitNotAFunction("select"))
  }

  /** The sort used when the request gives none: newest first. */
  const DefaultSort: string := "-createdAt"

  /** The sort: the field list of a truthy `sort`, or `-createdAt`. */
  function SortClause(query: Query): (r: Result<string, Fault>)
    ensures !Truthy(Get(query, "sort")) ==> r == Success(DefaultSort)
    ensures Truthy(Get(query, "sort")) && query["sort"].Text? ==>
      r.Success? && IsReplaced(query["sort"].text, r.value, ',', ' ')
    ensures r.Failure? <==> "sort" in query && query["sort"].Object?
  {
    var p := Get(query, "sort");
    if !Truthy(p) then Success(DefaultSort)
    else match p.value
      case Text(s) => Success(FieldList(s))
      case Object(_) => Failure(SplitNotAFunction("sort"))
  }

  // ---------------------------------------------------------------------------
  // Page window

  /** `String(value)` as `parseInt` sees it. */
  function ParamString(p: Option<Param>): (s: string)
    ensures p.Some? && p.value.Text? ==> s == p.value.text
    ensures p.None? || p.value.Object? ==> forall q :: 0 <= q < |s| ==> !IsDigit(s[q])
  {
    match p
    case None => "undefined"
    case Some(Text(s)) => s
    case Some(Object(_)) => "[object Object]"
  }

  /** `parseInt(value, 10) || fallback`: the parse, unless it is `NaN` or 0. */
  function ParseOr(p: Option<Param>, fallback: int): (r: int)
    ensures ParseInt(ParamString(p)) == None ==> r == fallback
    ensures ParseInt(ParamString(p)) == Some(0) ==> r == fallback
    ensures ParseInt(ParamString(p)).Some? && ParseInt(ParamString(p)).value != 0 ==>
      r == ParseInt(ParamString(p)).value
  {
    var v := ParseInt(ParamString(p));
    if v.None? || v.value == 0 then fallback else v.value
  }

  const DefaultLimit: int := 25

  /** `page`: defaults to 1; a negative number is kept. */
  function PageNumber(query: Query): (page: int)
    ensures page != 0
  {
    ParseOr(Get(query, "page"), 1)
  }

  /** `limit`: defaults to 25; a negative number is kept. */
  function PageLimit(query: Query): (limit: int)
    ensures limit != 0
  {
    ParseOr(Get(query, "limit"), DefaultLimit)
  }

  /** A missing or nested page parameter falls back to the default. */
  lemma MissingOrNestedUsesDefault(p: Option<Param>, fallback: int)
    requires p.None? || p.value.Object?
    ensures ParseOr(p, fallback) == fallback
  {
    if p.None? {
      ParseNoDigits("undefined");
    } else {
      ParseNoDigits("[object Object]");
    }
  }

  /** A page parameter written as a non-zero decimal number, with or without trailing text, is that number. */
  lemma DecimalIsKept(n: int, rest: string, fallback: int)
    requires n != 0
    requires rest == [] || !IsDigit(rest[0])
    ensures ParseOr(Some(Text(ShowInt(n) + rest)), fallback) == n
  {
    ParseShowExact(n, rest);
  }

  /** The page window: `startIndex = (page-1)*limit`, `endIndex = page*limit`. */
  datatype Window = Window(startIndex: int, endIndex: int)

  function PageWindow(page: int, limit: int): (w: Window)
    ensures w.endIndex - w.startIndex == limit
    ensures page >= 1 && limit >= 1 ==> 0 <= w.startIndex < w.endIndex
  {
    Window((page - 1) * limit, page * limit)
  }

  // ---------------------------------------------------------------------------
  // Running the query

  /** The documents that match the filter, in collection order. */
  function Matching(c: Collection, filter: Query, docs: seq<Document>): (r: seq<Document>)
    ensures |r| <= |docs|
    ensures forall d :: d in r ==> d in docs && c.matches(filter, d)
    ensures forall d :: d in docs && c.matches(filter, d) ==> d in r
    ensures forall d :: multiset(r)[d] == if c.matches(filter, d) then multiset(docs)[d] else 0
  {
    if docs == [] then []
    else
      var rest := Matching(c, filter, docs[1..]);
      assert docs == [docs[0]] + docs[1..];
      assert multiset(docs) == multiset{docs[0]} + multiset(docs[1..]);
      if c.matches(filter, docs[0]) then [docs[0]] + rest else rest
  }

  function Min(a: int, b: int): int {
    if a <= b then a else b
  }

  /**
   * `skip(n).limit(m)` on an ordered result: drop the first `n`, keep at most
   * `|m|` (0 means all). A negative skip is refused.
   */
  function Slice(docs: seq<Document>, skip: int, limit: int): (r: Result<seq<Document>, Fault>)
    ensures r.Failure? <==> skip < 0
    ensures r.Success? ==> |r.value| == Min(|docs| - Min(skip, |docs|), if limit == 0 then |docs| else if limit < 0 then -limit else limit)
    ensures r.Success? ==> forall i :: 0 <= i < |r.value| ==> skip + i < |docs| && r.value[i] == docs[skip + i]
  {
    if skip < 0 then Failure(NegativeSkip(skip))
    else
      var from := Min(skip, |docs|);
      var take := if limit == 0 then |docs| else if limit < 0 then -limit else limit;
      Success(docs[from..from + Min(|docs| - from, take)])
  }

  /** The matching documents in the order the query's sort string gives them. */
  function Ordered(c: Collection, q: QuerySpec): seq<Document> {
    c.order(if q.sort.Some? then q.sort.value else "", Matching(c, q.filter, c.documents))
  }

  /** The database's sort only reorders the documents it is given. */
  ghost predicate SortReorders(c: Collection) {
    forall key, docs :: multiset(c.order(key, docs)) == multiset(docs)
  }

  /** One awaited document: projected when a projection is set, then populated when a relation is. */
  function Shape(c: Collection, q: QuerySpec, d: Document): Document {
    var projected := if q.select.Some? then c.project(q.select.value, d) else d;
    if q.populate.Some? then c.populate(q.populate.value, projected) else projected
  }

  /** Every document of the window, shaped in turn. */
  function ShapeAll(c: Collection, q: QuerySpec, page: seq<Document>): (r: seq<Document>)
    ensures |r| == |page|
    ensures forall i :: 0 <= i < |page| ==> r[i] == Shape(c, q, page[i])
  {
    if page == [] then [] else [Shape(c, q, page[0])] + ShapeAll(c, q, page[1..])
  }

  /**
   * Awaiting the query: the filter is cast first, so a filter the schema
   * cannot cast rejects before the database sees the window; then filter,
   * sort, skip `q.skip` and keep `q.limit`, and project and populate each
   * document of the window.
   */
  function Execute(c: Collection, q: QuerySpec): (r: Result<seq<Document>, Fault>)
    ensures r.Failure? <==> c.refuses(q.filter) || q.skip < 0
    ensures r.Failure? ==> r.error == if c.refuses(q.filter) then CastFailure(q.filter) else NegativeSkip(q.skip)
    ensures r.Success? && q.limit > 0 ==> |r.value| <= q.limit
    ensures r.Success? ==> |r.value| == |Slice(Ordered(c, q), q.skip, q.limit).value|
    ensures r.Success? ==> forall i :: 0 <= i < |r.value| ==>
      q.skip + i < |Ordered(c, q)| && r.value[i] == Shape(c, q, Ordered(c, q)[q.skip + i])
  {
    if c.refuses(q.filter) then Failure(CastFailure(q.filter))
    else
      var sorted := Ordered(c, q);
      match Slice(sorted, q.skip, q.limit)
      case Failure(e) => Failure(e)
      case Success(page) =>
        Success(ShapeAll(c, q, page))
  }

  /**
   * With no window, no projection and no population, and a sort that only
   * reorders, the awaited query returns every matching document of the
   * collection as often as it occurs there, and nothing else.
   */
  lemma WholeResultIsEveryMatch(c: Collection, q: QuerySpec)
    requires SortReorders(c) && !c.refuses(q.filter)
    requires q.skip == 0 && q.limit == 0 && q.select.None? && q.populate.None?
    ensures Execute(c, q).Success?
    ensures forall d ::
              multiset(Execute(c, q).value)[d] == if c.matches(q.filter, d) then multiset(c.documents)[d] else 0
  {
    var sorted := Ordered(c, q);
    var r := Execute(c, q).value;
    assert |r| == |sorted|;
    assert forall i :: 0 <= i < |r| ==> r[i] == sorted[i];
    assert r == sorted;
    assert multiset(sorted) == multiset(Matching(c, q.filter, c.documents));
  }

  // ---------------------------------------------------------------------------
  // Pagination links and the envelope

  /** The links: `next` iff `endIndex < total`, `prev` iff `startIndex > 0`, both with the same limit. */
  function Links(page: int, limit: int, total: nat): (p: Pagination)
    ensures p.next.Some? <==> PageWindow(page, limit).endIndex < total
    ensures p.prev.Some? <==> PageWindow(page, limit).startIndex > 0
    ensures p.next.Some? ==> p.next.value == PageLink(page + 1, limit)
    ensures p.prev.Some? ==> p.prev.value == PageLink(page - 1, limit)
  {
    var w := PageWindow(page, limit);
    Pagination(
      if w.endIndex < total then Some(PageLink(page + 1, limit)) else None,
      if w.startIndex > 0 then Some(PageLink(page - 1, limit)) else None)
  }

  /** Starts from `{}` and adds `next`, then `prev`, when each applies. */
  method BuildPagination(page: int, limit: int, startIndex: int, endIndex: int, total: nat)
    returns (pagination: Pagination)
    requires PageWindow(page, limit) == Window(startIndex, endIndex)
    ensures pagination == Links(page, limit, total)
  {
    pagination := Pagination(None, None);
    if endIndex < total {
      pagination := pagination.(next := Some(PageLink(page + 1, limit)));
    }
    if startIndex > 0 {
      pagination := pagination.(prev := Some(PageLink(page - 1, limit)));
    }
  }

  /** With positive page and limit: `prev` exactly from page 2 on, `next` exactly while documents lie past this page. */
  lemma LinksForPositivePages(page: int, limit: int, total: nat)
    requires page >= 1 && limit >= 1
    ensures Links(page, limit, total).prev.Some? <==> page > 1
    ensures Links(page, limit, total).next.Some? <==> page * limit < total
  {
    if page > 1 {
      assert (page - 1) * limit >= limit;
    }
  }

  /**
   * The query the middleware builds before awaiting it, or the fault met on
   * the way: the filter, the projection, the sort, the population, and the
   * page window as skip and limit.
   */
  function Plan(query: Query, populate: Option<Param>): (r: Result<QuerySpec, Fault>)
    ensures r.Failure? <==> SelectClause(query).Failure? || SortClause(query).Failure?
    ensures r.Failure? ==> r.error == if SelectClause(query).Failure? then SelectClause(query).error else SortClause(query).error
    ensures r.Success? ==> r.value.filter == Filter(query) && r.value.select == SelectClause(query).value
    ensures r.Success? ==> r.value.sort == Some(SortClause(query).value)
    ensures r.Success? ==> r.value.populate == (if Truthy(populate) then populate else None)
    ensures r.Success? ==> r.value.skip == PageWindow(PageNumber(query), PageLimit(query)).startIndex
    ensures r.Success? ==> r.value.limit == PageLimit(query)
  {
    match SelectClause(query)
    case Failure(e) => Failure(e)
    case Success(select) =>
      match SortClause(query)
      case Failure(e) => Failure(e)
      case Success(sort) =>
        var page, limit := PageNumber(query), PageLimit(query);
        Success(QuerySpec(Filter(query), select, Some(sort), if Truthy(populate) then populate else None,
          PageWindow(page, limit).startIndex, limit))
  }

  /** The whole middleware as one value: the envelope, or the fault that stops it. */
  function Run(model: Collection, populate: Option<Param>, query: Query): (r: Result<Envelope, Fault>)
    ensures r.Success? ==> r.value.success && r.value.count == |r.value.data|
    ensures r.Success? ==> r.value.pagination == Links(PageNumber(query), PageLimit(query), |model.documents|)
    ensures r.Success? && PageLimit(query) > 0 ==> r.value.count <= PageLimit(query)
    ensures r.Failure? <==>
      SelectClause(query).Failure? || SortClause(query).Failure?
      || model.refuses(Filter(query)) || PageWindow(PageNumber(query), PageLimit(query)).startIndex < 0
  {
    match Plan(query, populate)
    case Failure(e) => Failure(e)
    case Success(q) =>
      match Execute(model, q)
      case Failure(e) => Failure(e)
      case Success(results) =>
        Success(Envelope(true, |results|, Links(PageNumber(query), PageLimit(query), |model.documents|), results))
  }

  /** A run whose query is built and awaited ends with the envelope of the awaited documents. */
  lemma RunSucceeds(model: Collection, populate: Option<Param>, query: Query, q: QuerySpec, results: seq<Document>)
    requires Plan(query, populate) == Success(q) && Execute(model, q) == Success(results)
    ensures Run(model, populate, query) ==
      Success(Envelope(true, |results|, Links(PageNumber(query), PageLimit(query), |model.documents|), results))
  {
  }

  /** A run ends with the first fault met, building the query or awaiting it. */
  lemma RunFails(model: Collection, populate: Option<Param>, query: Query)
    requires Plan(query, populate).Failure? || Execute(model, Plan(query, populate).value).Failure?
    ensures Run(model, populate, query) == Failure(
      if Plan(query, populate).Failure? then Plan(query, populate).error
      else Execute(model, Plan(query, populate).value).error)
  {
  }

  /**
   * Builds the query step by step from the request's query string, as the
   * middleware does before counting and awaiting: copy, delete the control
   * parameters, rewrite, `find`, then `select`, `sort`, `populate`, and the
   * page window as `skip` and `limit`. A nested `select` or `sort` stops it
   * before the page is read.
   */
  method PrepareQuery(reqQuery0: Query, populate: Option<Param>)
    returns (plan: Result<QuerySpec, Fault>, page: int, limit: int, window: Window)
    ensures plan == Plan(reqQuery0, populate)
    ensures plan.Success? ==> page == PageNumber(reqQuery0) && limit == PageLimit(reqQuery0)
    ensures plan.Success? ==> window == PageWindow(page, limit) && plan.value.skip == window.startIndex
  {
    var reqQuery := RemoveControlKeys(reqQuery0);
    var query := Find(RewriteParam(Object(reqQuery)).fields);

    var select := Get(reqQuery0, "select");
    if Truthy(select) {
      match select.value
      case Object(_) =>
        return Failure(SplitNotAFunction("select")), 0, 0, Window(0, 0);
      case Text(s) =>
        query := query.(select := Some(FieldList(s)));
    }

    var sort := Get(reqQuery0, "sort");
    if Truthy(sort) {
      match sort.value
      case Object(_) =>
        return Failure(SplitNotAFunction("sort")), 0, 0, Window(0, 0);
      case Text(s) =>
        query := query.(sort := Some(FieldList(s)));
    } else {
      query := query.(sort := Some(DefaultSort));
    }

    if Truthy(populate) {
      query := query.(populate := populate);
    }

    page := ParseOr(Get(reqQuery0, "page"), 1);
    limit := ParseOr(Get(reqQuery0, "limit"), DefaultLimit);
    window := PageWindow(page, limit);

    query := query.(skip := window.startIndex, limit := limit);
    plan := Success(query);
  }

  /**
   * The middleware: builds the query, counts the whole collection, awaits
   * the query and stores the envelope in the response. On a fault nothing
   * is stored. The request is only read.
   */
  method Middleware(model: Collection, populate: Option<Param>, req: Request, res: Response)
    returns (fault: Option<Fault>)
    modifies res`advancedResults
    ensures Run(model, populate, old(req.query)).Success? ==>
      fault == None && res.advancedResults == Some(Run(model, populate, old(req.query)).value)
    ensures Run(model, populate, old(req.query)).Failure? ==>
      fault == Some(Run(model, populate, old(req.query)).error) && res.advancedResults == old(res.advancedResults)
  {
    var query := req.query;
    var plan, page, limit, window := PrepareQuery(query, populate);
    if plan.Failure? {
      RunFails(model, populate, query);
      return Some(plan.error);
    }
    var total := |model.documents|;

    var results := Execute(model, plan.value);
    if results.Failure? {
      RunFails(model, populate, query);
      return Some(results.error);
    }

    var pagination := BuildPagination(page, limit, window.startIndex, window.endIndex, total);
    RunSucceeds(model, populate, query, plan.value, results.value);

    res.advancedResults := Some(Envelope(true, |results.value|, pagination, results.value));
    fault := None;
  }

  // ---------------------------------------------------------------------------
  // Worked cases

  /** `page=2&limit=10` over 25 documents: skip 10, take 10, links to pages 1 and 3. */
  lemma SecondPageOfTwentyFive()
    ensures PageWindow(2, 10) == Window(10, 20)
    ensures Links(2, 10, 25) == Pagination(Some(PageLink(3, 10)), Some(PageLink(1, 10)))
    ensures Links(1, 25, 25) == Pagination(None, None)
  {
  }

  /** Nothing matches, nothing is returned: the filtered documents are empty. */
  lemma {:induction false} NothingMatches(c: Collection, filter: Query, docs: seq<Document>)
    requires forall d :: d in docs ==> !c.matches(filter, d)
    ensures Matching(c, filter, docs) == []
  {
    if docs != [] {
      NothingMatches(c, filter, docs[1..]);
    }
  }

  /**
   * `total` counts the whole collection, not the filtered documents: with 30
   * documents of which none has the name asked for, the first page is empty
   * and still links to a next page.
   */
  lemma NextLinkCountsWholeCollection(model: Collection)
    requires SortReorders(model) && !model.refuses(Filter(map["name" := Text("none")]))
    requires |model.documents| == 30
    requires forall d :: d in model.documents ==> !model.matches(Filter(map["name" := Text("none")]), d)
    ensures var r := Run(model, None, map["name" := Text("none")]);
      r.Success? && r.value.data == [] && r.value.pagination.next == Some(PageLink(2, 25))
  {
    var query: Query := map["name" := Text("none")];
    var q := NameQueryPlan();
    NothingMatches(model, Filter(query), model.documents);
    var sorted := Ordered(model, q);
    assert multiset(sorted) == multiset{};
    assert |sorted| == |multiset(sorted)| == 0;
    assert Slice(sorted, 0, 25) == Success([]);
    assert Execute(model, q) == Success([]);
    RunSucceeds(model, None, query, q, []);
    assert Links(1, 25, 30).next == Some(PageLink(2, 25));
  }

  /** The query built for `?name=none`: the default page, limit and sort. */
  lemma NameQueryPlan() returns (q: QuerySpec)
    ensures var query: Query := map["name" := Text("none")];
      && PageNumber(query) == 1 && PageLimit(query) == 25
      && q == QuerySpec(Filter(query), None, Some(DefaultSort), None, 0, 25)
      && Plan(query, None) == Success(q)
  {
    var query: Query := map["name" := Text("none")];
    assert Get(query, "page") == None && Get(query, "limit") == None;
    assert PageNumber(query) == 1 by { MissingOrNestedUsesDefault(None, 1); }
    assert PageLimit(query) == 25 by { MissingOrNestedUsesDefault(None, DefaultLimit); }
    assert Get(query, "select") == None && Get(query, "sort") == None;
    assert SelectClause(query) == Success(None);
    assert SortClause(query) == Success(DefaultSort);
    q := QuerySpec(Filter(query), None, Some(DefaultSort), None, 0, 25);
    var p := Plan(query, None).value;
    assert p.filter == q.filter && p.select == q.select && p.sort == q.sort;
    assert p.populate == q.populate && p.skip == q.skip && p.limit == q.limit;
  }
}
