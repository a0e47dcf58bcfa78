/**
 * The submission endpoints' own logic: defaulting and checking the listing
 * query before the store is asked, and the shape of the answer to a create.
 * Query-string values arrive as strings, or not at all.
 */
module Controller {
  import opened Wrappers
  import opened JsText
  import opened JsValues
  import opened RecordSort
  import opened Store

  const DefaultPage: int := 1
  const DefaultLimit: int := 10
  const MaxLimit: int := 100
  const PaginationError: string := "Invalid pagination parameters"
  const SortOrderError: string := "Invalid sort order. Use \"asc\" or \"desc\""

  datatype QueryParams = QueryParams(
    page: Option<string>, limit: Option<string>, sortBy: Option<string>, sortOrder: Option<string>)

  /** `parseInt(v) || fallback`: NaN and 0 are falsy. */
  function IntOr(v: Option<string>, fallback: int): int {
    match v
    case None => fallback
    case Some(s) =>
      match ParseInt(s)
      case None => fallback
      case Some(k) => if k == 0 then fallback else k
  }

  /** `v || fallback` for a string: the empty string is falsy. */
  function StringOr(v: Option<string>, fallback: string): (s: string)
    ensures s == fallback || (v.Some? && s == v.value && s != "")
    ensures v.Some? && v.value != "" ==> s == v.value
  {
    match v
    case None => fallback
    case Some(t) => if t == "" then fallback else t
  }

  datatype Decision = Reject(message: string) | Accept(query: Query)

  /** The defaulting and the two checks of `getSubmissions`, in order. */
  function CheckQuery(params: QueryParams): (d: Decision)
    ensures d.Accept? ==> 1 <= d.query.page && 1 <= d.query.limit <= MaxLimit
    ensures d.Accept? ==> d.query.sortOrder == "asc" || d.query.sortOrder == "desc"
  {
    var page := IntOr(params.page, DefaultPage);
    var limit := IntOr(params.limit, DefaultLimit);
    var sortBy := StringOr(params.sortBy, "createdAt");
    var sortOrder := StringOr(params.sortOrder, "desc");
    if page < 1 || limit < 1 || limit > MaxLimit then Reject(PaginationError)
    else if !(sortOrder in ["asc", "desc"]) then Reject(SortOrderError)
    else Accept(Query(page, limit, sortBy, sortOrder))
  }

  /** With no parameters at all the listing is page 1 of 10, newest first. */
  lemma EmptyQueryDefaults()
    ensures CheckQuery(QueryParams(None, None, None, None)) == Accept(Query(1, 10, "createdAt", "desc"))
  {
  }

  /** A missing, unparsable or zero `page` becomes 1, and likewise `limit`
      becomes 10. */
  lemma FalsyNumbersDefault(p: Option<string>)
    requires p.None? || ParseInt(p.value).None? || ParseInt(p.value) == Some(0)
    ensures IntOr(p, DefaultPage) == 1 && IntOr(p, DefaultLimit) == 10
  {
  }

  /** A decimal page number is taken as written. */
  lemma WrittenPageKept(n: int)
    requires n != 0
    ensures IntOr(Some(IntToString(n)), DefaultPage) == n
  {
    ParseIntOfIntToString(n);
  }

  /** In terms of the raw query string: `page` is refused only when it reads
      as a negative integer and `limit` only when it reads as a negative
      integer or one above 100, and that check comes first; `sortOrder` must
      then be absent, empty, 'asc' or 'desc'. */
  lemma CheckQueryOnRawParameters(params: QueryParams)
    ensures var badPage := params.page.Some? && ParseInt(params.page.value).Some? && ParseInt(params.page.value).value < 0;
            var badLimit := params.limit.Some? && ParseInt(params.limit.value).Some?
                            && (ParseInt(params.limit.value).value < 0 || ParseInt(params.limit.value).value > 100);
            var goodOrder := params.sortOrder.None? || params.sortOrder.value in ["", "asc", "desc"];
            (CheckQuery(params) == Reject("Invalid pagination parameters") <==> badPage || badLimit)
            && (CheckQuery(params) == Reject("Invalid sort order. Use \"asc\" or \"desc\"") <==> !badPage && !badLimit && !goodOrder)
            && (CheckQuery(params).Accept? <==> !badPage && !badLimit && goodOrder)
  {
  }

  /** Any `sortBy` passes: a query that is accepted stays accepted with a
      different `sortBy`, which is then used as given. */
  lemma SortByUnchecked(params: QueryParams, key: string)
    requires key != "" && CheckQuery(params).Accept?
    ensures CheckQuery(params.(sortBy := Some(key))) == Accept(CheckQuery(params).query.(sortBy := key))
  {
  }

  datatype ListResponse = Status400(message: string) | Status200(listing: Listing)

  /** `getSubmissions`: the store is only asked with a page of at least 1 and
      a limit between 1 and 100. */
  method GetSubmissions(store: SubmissionStore, params: QueryParams) returns (response: ListResponse)
    requires store.Valid()
    ensures CheckQuery(params).Reject? ==> response == Status400(CheckQuery(params).message)
    ensures CheckQuery(params).Accept? ==>
              var q := CheckQuery(params).query;
              response.Status200?
              && response.listing.data == PageOf(store.submissions, q)
              && response.listing.pagination
                 == Pagination(q.page, CeilDiv(|store.submissions|, q.limit), |store.submissions|, q.limit)
  {
    var decision := CheckQuery(params);
    match decision
    case Reject(message) =>
      response := Status400(message);
    case Accept(query) =>
      var result := store.GetAll(query);
      response := Status200(result);
  }

  datatype CreateResponse = Status201(id: Value, createdAt: Value)

  /** `createSubmission`: 201 with the new record's `id` and `createdAt`. */
  method CreateSubmission(store: SubmissionStore, data: Obj, now: string) returns (response: CreateResponse)
    requires store.Valid()
    modifies store
    ensures store.Valid()
    ensures var sub := NewSubmission(old(store.currentId), data, now);
            store.submissions == old(store.submissions) + [sub]
            && response == Status201(Get(sub, "id"), Str(now))
  {
    var submission := store.Create(data, now);
    GetSet(Assign([("id", Str(FormatId(old(store.currentId))))], data), "createdAt", Str(now), "createdAt");
    response := Status201(Get(submission, "id"), Get(submission, "createdAt"));
  }
}
