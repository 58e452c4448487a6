/** The client's deal store (`stores/dealStore.ts`): the listed deals, the
    filters they were fetched with, the pagination the server reported,
    and the per-stage pipeline values. */
module DealStore {
  import opened Wrappers
  import opened Client

  datatype DealPagination = DealPagination(total: int, limit: int, offset: int)

  datatype DealStoreState = DealStoreState(
    deals: seq<ClientDeal>, currentDeal: Option<ClientDeal>, filters: Obj,
    isLoading: bool, error: Option<string>, pipelineValues: map<nat, int>,
    pagination: DealPagination)

  /** The filters a fresh store and `clearFilters` start from. */
  const DefaultFilters: Obj := map["limit" := Num(20), "offset" := Num(0)]

  const Initial := DealStoreState([], None, DefaultFilters, false, None, map[], DealPagination(0, 20, 0))

  /** The body of `GET /deals`. */
  datatype DealsResponse = DealsResponse(deals: seq<ClientDeal>, total: int, limit: int, offset: int)

  /** The filters `fetchDeals(filters?)` stores and sends. */
  function MergedFilters(s: DealStoreState, filters: Option<Obj>): Obj
  {
    if filters.Some? then Spread(s.filters, filters.value) else s.filters
  }

  /** `fetchDeals(filters?)`: the merged filters are stored before the
      request, so they stay even when it fails; a success replaces the
      deals and the pagination wholesale. */
  function FetchDeals(s: DealStoreState, filters: Option<Obj>, resp: Answer<DealsResponse>): (r: Step<DealStoreState, ()>)
    ensures r.requests == [Get("/deals", r.state.filters)]
    ensures filters.None? ==> r.state.filters == s.filters
    ensures filters.Some? ==> (forall k :: k in r.state.filters <==> k in s.filters || k in filters.value)
                              && (forall k :: k in filters.value ==> r.state.filters[k] == filters.value[k])
                              && (forall k :: k in s.filters && k !in filters.value ==> r.state.filters[k] == s.filters[k])
    ensures !r.state.isLoading
    ensures r.state.currentDeal == s.currentDeal && r.state.pipelineValues == s.pipelineValues
    ensures resp.Answered? ==> && r.result == Resolved(())
                               && r.state.deals == resp.data.deals && r.state.error.None?
                               && r.state.pagination == DealPagination(resp.data.total, resp.data.limit, resp.data.offset)
    ensures resp.Failed? ==> && r.result == Rejected(resp.serverError)
                             && r.state.deals == s.deals && r.state.pagination == s.pagination
                             && r.state.error == Some(ErrorMessage(resp.serverError, "Failed to fetch deals"))
  {
    var current := MergedFilters(s, filters);
    var s1 := s.(isLoading := true, error := None, filters := current);
    var req := Get("/deals", current);
    match resp
    case Answered(d) =>
      Step(s1.(deals := d.deals, pagination := DealPagination(d.total, d.limit, d.offset), isLoading := false), [req], Resolved(()))
    case Failed(e) =>
      Step(s1.(error := Some(ErrorMessage(e, "Failed to fetch deals")), isLoading := false), [req], Rejected(e))
  }

  /** The shared shape of the mutations: the request, then on success
      `fetchDeals()` with the stored filters.  A failure of either
      request is reported with the mutation's own fallback message, and
      the promise is rejected with it. */
  function Mutation<T>(s: DealStoreState, req: Request, resp: Answer<T>, refetch: Answer<DealsResponse>, fallback: string)
    : (r: Step<DealStoreState, T>)
    ensures !r.state.isLoading && r.state.filters == s.filters
    ensures resp.Failed? ==> && r.requests == [req]
                             && r.state == s.(isLoading := false, error := Some(ErrorMessage(resp.serverError, fallback)))
                             && r.result == Rejected(resp.serverError)
    ensures resp.Answered? ==> r.requests == [req, Get("/deals", s.filters)]
    ensures resp.Answered? && refetch.Answered? ==>
              && r.result == Resolved(resp.data)
              && r.state == FetchDeals(s.(isLoading := false, error := None), None, refetch).state
    ensures resp.Answered? && refetch.Failed? ==>
              && r.result == Rejected(refetch.serverError)
              && r.state.error == Some(ErrorMessage(refetch.serverError, fallback))
              && r.state.deals == s.deals
  {
    match resp
    case Failed(e) => Step(s.(isLoading := false, error := Some(ErrorMessage(e, fallback))), [req], Rejected(e))
    case Answered(v) =>
      var f := FetchDeals(s.(isLoading := false, error := None), None, refetch);
      match f.result
      case Resolved(_) => Step(f.state, [req] + f.requests, Resolved(v))
      case Rejected(e) =>
        Step(f.state.(error := Some(ErrorMessage(e, fallback)), isLoading := false), [req] + f.requests, Rejected(e))
  }

  /** `fetchDealById(id)`. */
  function FetchDealById(s: DealStoreState, id: nat, resp: Answer<ClientDeal>): (r: Step<DealStoreState, ()>)
    ensures r.requests == [Get(ItemPath("/deals", id), map[])]
    ensures !r.state.isLoading && r.state.deals == s.deals && r.state.filters == s.filters
    ensures resp.Answered? ==> r.state.currentDeal == Some(resp.data) && r.state.error.None? && r.result == Resolved(())
    ensures resp.Failed? ==> && r.state.currentDeal == s.currentDeal
                             && r.state.error == Some(ErrorMessage(resp.serverError, "Failed to fetch deal"))
                             && r.result == Rejected(resp.serverError)
  {
    var req := Get(ItemPath("/deals", id), map[]);
    match resp
    case Answered(d) => Step(s.(currentDeal := Some(d), isLoading := false, error := None), [req], Resolved(()))
    case Failed(e) => Step(s.(error := Some(ErrorMessage(e, "Failed to fetch deal")), isLoading := false), [req], Rejected(e))
  }

  /** `createDeal(data)`: resolves with the created deal. */
  function CreateDeal(s: DealStoreState, data: Obj, resp: Answer<ClientDeal>, refetch: Answer<DealsResponse>)
    : Step<DealStoreState, ClientDeal>
  {
    Mutation(s, Request(POST, "/deals", map[], data), resp, refetch, "Failed to create deal")
  }

  /** `updateDeal(id, data)`. */
  function UpdateDeal(s: DealStoreState, id: nat, data: Obj, resp: Answer<()>, refetch: Answer<DealsResponse>)
    : Step<DealStoreState, ()>
  {
    Mutation(s, Request(PATCH, ItemPath("/deals", id), map[], data), resp, refetch, "Failed to update deal")
  }

  /** The body `moveDeal` sends. */
  function MoveBody(stageId: int): Obj { map["stage_id" := Num(stageId)] }

  /** `moveDeal(id, stageId)`. */
  function MoveDeal(s: DealStoreState, id: nat, stageId: int, resp: Answer<()>, refetch: Answer<DealsResponse>)
    : Step<DealStoreState, ()>
  {
    Mutation(s, Request(PUT, ItemPath("/deals", id) + "/move", map[], MoveBody(stageId)), resp, refetch, "Failed to move deal")
  }

  /** `updateDealStatus(id, status)`. */
  function UpdateDealStatus(s: DealStoreState, id: nat, status: string, resp: Answer<()>, refetch: Answer<DealsResponse>)
    : Step<DealStoreState, ()>
  {
    Mutation(s, Request(PUT, ItemPath("/deals", id) + "/status", map[], map["status" := Str(status)]), resp, refetch,
             "Failed to update deal status")
  }

  /** `deleteDeal(id)`. */
  function DeleteDeal(s: DealStoreState, id: nat, resp: Answer<()>, refetch: Answer<DealsResponse>)
    : Step<DealStoreState, ()>
  {
    Mutation(s, Request(DELETE, ItemPath("/deals", id), map[], map[]), resp, refetch, "Failed to delete deal")
  }

  /** Every mutation, once its own request succeeds, refetches the list
      with exactly the filters stored before it, and the stored filters
      do not change. */
  lemma MutationsRefetchWithStoredFilters(s: DealStoreState, id: nat, stageId: int, status: string, data: Obj,
                                          created: Answer<ClientDeal>, done: Answer<()>, refetch: Answer<DealsResponse>)
    ensures created.Answered? ==> var r := CreateDeal(s, data, created, refetch);
              |r.requests| == 2 && r.requests[1] == Get("/deals", s.filters) && r.state.filters == s.filters
    ensures done.Answered? ==>
              && UpdateDeal(s, id, data, done, refetch).requests[1] == Get("/deals", s.filters)
              && MoveDeal(s, id, stageId, done, refetch).requests[1] == Get("/deals", s.filters)
              && UpdateDealStatus(s, id, status, done, refetch).requests[1] == Get("/deals", s.filters)
              && DeleteDeal(s, id, done, refetch).requests[1] == Get("/deals", s.filters)
    ensures done.Failed? ==>
              && |DeleteDeal(s, id, done, refetch).requests| == 1
              && DeleteDeal(s, id, done, refetch).state.deals == s.deals
  {
  }

  /** A refetch that fails after a successful move is reported as a
      failed move. */
  lemma FailedRefetchIsMutationFailure(s: DealStoreState, id: nat, stageId: int, refetch: Answer<DealsResponse>)
    requires refetch.Failed? && (refetch.serverError.None? || refetch.serverError.value == "")
    ensures var r := MoveDeal(s, id, stageId, Answered(()), refetch);
            r.result.Rejected? && r.state.error == Some("Failed to move deal")
  {
  }

  /** `fetchPipelineValues()`: never touches `isLoading`, and does not
      clear an earlier error on success. */
  function FetchPipelineValues(s: DealStoreState, resp: Answer<map<nat, int>>): (r: Step<DealStoreState, ()>)
    ensures r.requests == [Get("/deals/pipeline-value", map[])]
    ensures r.state.isLoading == s.isLoading
    ensures r.state.deals == s.deals && r.state.filters == s.filters
    ensures resp.Answered? ==> r.state == s.(pipelineValues := resp.data) && r.result == Resolved(())
    ensures resp.Failed? ==> && r.state == s.(error := Some(ErrorMessage(resp.serverError, "Failed to fetch pipeline values")))
                             && r.result == Rejected(resp.serverError)
  {
    var req := Get("/deals/pipeline-value", map[]);
    match resp
    case Answered(v) => Step(s.(pipelineValues := v), [req], Resolved(()))
    case Failed(e) => Step(s.(error := Some(ErrorMessage(e, "Failed to fetch pipeline values"))), [req], Rejected(e))
  }

  /** `setFilters(filters)`: merged over the stored ones, no request. */
  function SetFilters(s: DealStoreState, filters: Obj): (r: DealStoreState)
    ensures r == s.(filters := r.filters)
    ensures forall k :: k in filters ==> k in r.filters && r.filters[k] == filters[k]
    ensures forall k :: k in s.filters && k !in filters ==> k in r.filters && r.filters[k] == s.filters[k]
  {
    s.(filters := Spread(s.filters, filters))
  }

  /** Setting the same filters twice is setting them once, and a fetch
      with filters stores what `setFilters` would. */
  lemma SetFiltersIdempotent(s: DealStoreState, filters: Obj, resp: Answer<DealsResponse>)
    ensures SetFilters(SetFilters(s, filters), filters) == SetFilters(s, filters)
    ensures FetchDeals(s, Some(filters), resp).state.filters == SetFilters(s, filters).filters
  {
    SpreadIdempotent(s.filters, filters);
  }

  /** `clearFilters()`. */
  function ClearFilters(s: DealStoreState): (r: DealStoreState)
    ensures r == s.(filters := map["limit" := Num(20), "offset" := Num(0)])
    ensures r.filters == Initial.filters
  {
    s.(filters := DefaultFilters)
  }

  /** `clearError()`. */
  function ClearError(s: DealStoreState): (r: DealStoreState)
    ensures r.error.None? && r == s.(error := None)
  {
    s.(error := None)
  }
}
