/** The paginated report list: the requested page size is clamped before the repository is asked. */
module FetchReportsUseCase {
  import opened Wrappers

  datatype SortField = CreatedAt | Score
  datatype SortDirection = Asc | Desc

  /** The query the controller builds and the use case forwards. */
  datatype FetchReportsQuery = FetchReportsQuery(limit: int, cursor: Option<string>, sortField: SortField,
                                                 sortDirection: SortDirection)

  const MinLimit: int := 20
  const MaxLimit: int := 100

  /** `Math.min(Math.max(limit, 20), 100)` */
  function EffectiveLimit(limit: int): (n: int)
    ensures MinLimit <= n <= MaxLimit
    ensures limit < MinLimit ==> n == MinLimit
    ensures limit > MaxLimit ==> n == MaxLimit
    ensures MinLimit <= limit <= MaxLimit ==> n == limit
  {
    var atLeast := if limit > MinLimit then limit else MinLimit;
    if atLeast < MaxLimit then atLeast else MaxLimit
  }

  /**
   * `execute`: the repository's page for the clamped limit, with sort field,
   * direction and cursor passed on as given and the result returned as it comes.
   */
  function Execute<P>(query: FetchReportsQuery, findPaginated: (int, SortField, SortDirection, Option<string>) -> P): (r: P)
    ensures exists n :: MinLimit <= n <= MaxLimit && r == findPaginated(n, query.sortField, query.sortDirection, query.cursor)
    ensures MinLimit <= query.limit <= MaxLimit ==>
              r == findPaginated(query.limit, query.sortField, query.sortDirection, query.cursor)
    ensures query.limit < MinLimit ==> r == findPaginated(MinLimit, query.sortField, query.sortDirection, query.cursor)
    ensures query.limit > MaxLimit ==> r == findPaginated(MaxLimit, query.sortField, query.sortDirection, query.cursor)
  {
    findPaginated(EffectiveLimit(query.limit), query.sortField, query.sortDirection, query.cursor)
  }

  // ---------------------------------------------------------------- properties

  /** Clamping twice is clamping once. */
  lemma EffectiveLimitIdempotent(limit: int)
    ensures EffectiveLimit(EffectiveLimit(limit)) == EffectiveLimit(limit)
  {
  }

  /** Asking for more never yields a smaller page size. */
  lemma EffectiveLimitMonotone(a: int, b: int)
    requires a <= b
    ensures EffectiveLimit(a) <= EffectiveLimit(b)
  {
  }
}
