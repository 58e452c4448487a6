/** The client's pipeline store (`stores/pipelineStore.ts`): the tenant's
    stages as the server last listed them. */
module PipelineStore {
  import opened Wrappers
  import opened Client

  datatype PipelineStoreState = PipelineStoreState(stages: seq<ClientStage>, isLoading: bool, error: Option<string>)

  const Initial := PipelineStoreState([], false, None)

  const StagesPath := "/pipeline/stages"

  /** `fetchStages()`: a success replaces the stages wholesale. */
  function FetchStages(s: PipelineStoreState, resp: Answer<seq<ClientStage>>): (r: Step<PipelineStoreState, ()>)
    ensures r.requests == [Get(StagesPath, map[])] && !r.state.isLoading
    ensures resp.Answered? ==> r.state == PipelineStoreState(resp.data, false, None) && r.result == Resolved(())
    ensures resp.Failed? ==> && r.state.stages == s.stages && r.result == Rejected(resp.serverError)
                             && r.state.error == Some(ErrorMessage(resp.serverError, "Failed to fetch pipeline stages"))
  {
    var req := Get(StagesPath, map[]);
    match resp
    case Answered(st) => Step(s.(stages := st, isLoading := false, error := None), [req], Resolved(()))
    case Failed(e) => Step(s.(error := Some(ErrorMessage(e, "Failed to fetch pipeline stages")), isLoading := false), [req], Rejected(e))
  }

  /** The shared shape of the stage mutations: the request, then on
      success `fetchStages()`.  A failed request is not followed by a
      refetch; a failure of either is reported with the mutation's own
      fallback message and rethrown. */
  function Mutation(s: PipelineStoreState, req: Request, resp: Answer<()>, refetch: Answer<seq<ClientStage>>, fallback: string)
    : (r: Step<PipelineStoreState, ()>)
    ensures !r.state.isLoading
    ensures resp.Failed? ==> && r.requests == [req] && r.state.stages == s.stages
                             && r.state.error == Some(ErrorMessage(resp.serverError, fallback))
                             && r.result == Rejected(resp.serverError)
    ensures resp.Answered? ==> r.requests == [req, Get(StagesPath, map[])]
    ensures resp.Answered? && refetch.Answered? ==>
              r.state == PipelineStoreState(refetch.data, false, None) && r.result == Resolved(())
    ensures resp.Answered? && refetch.Failed? ==>
              && r.state.stages == s.stages && r.result == Rejected(refetch.serverError)
              && r.state.error == Some(ErrorMessage(refetch.serverError, fallback))
  {
    match resp
    case Failed(e) => Step(s.(isLoading := false, error := Some(ErrorMessage(e, fallback))), [req], Rejected(e))
    case Answered(_) =>
      var f := FetchStages(s.(isLoading := false, error := None), refetch);
      match f.result
      case Resolved(_) => Step(f.state, [req] + f.requests, Resolved(()))
      case Rejected(e) =>
        Step(f.state.(error := Some(ErrorMessage(e, fallback)), isLoading := false), [req] + f.requests, Rejected(e))
  }

  /** `createStage(data)`. */
  function CreateStage(s: PipelineStoreState, data: Obj, resp: Answer<()>, refetch: Answer<seq<ClientStage>>): Step<PipelineStoreState, ()>
  {
    Mutation(s, Request(POST, StagesPath, map[], data), resp, refetch, "Failed to create stage")
  }

  /** `updateStage(id, data)`. */
  function UpdateStage(s: PipelineStoreState, id: nat, data: Obj, resp: Answer<()>, refetch: Answer<seq<ClientStage>>)
    : Step<PipelineStoreState, ()>
  {
    Mutation(s, Request(PATCH, ItemPath(StagesPath, id), map[], data), resp, refetch, "Failed to update stage")
  }

  /** `deleteStage(id)`. */
  function DeleteStage(s: PipelineStoreState, id: nat, resp: Answer<()>, refetch: Answer<seq<ClientStage>>): Step<PipelineStoreState, ()>
  {
    Mutation(s, Request(DELETE, ItemPath(StagesPath, id), map[], map[]), resp, refetch, "Failed to delete stage")
  }

  /** The body `reorderStages` sends. */
  function ReorderBody(stageIds: seq<int>): Obj { map["stage_ids" := NumArray(stageIds)] }

  /** `reorderStages(stageIds)`. */
  function ReorderStages(s: PipelineStoreState, stageIds: seq<int>, resp: Answer<()>, refetch: Answer<seq<ClientStage>>)
    : Step<PipelineStoreState, ()>
  {
    Mutation(s, Request(PUT, StagesPath + "/reorder", map[], ReorderBody(stageIds)), resp, refetch, "Failed to reorder stages")
  }

  /** `clearError()`. */
  function ClearError(s: PipelineStoreState): (r: PipelineStoreState)
    ensures r.error.None? && r == s.(error := None)
  {
    s.(error := None)
  }

  /** Reordering sends the ids exactly as given, in the given order, and
      the server reads back the same list. */
  lemma ReorderSendsIdsUnchanged(s: PipelineStoreState, stageIds: seq<int>, resp: Answer<()>, refetch: Answer<seq<ClientStage>>)
    ensures var req := ReorderStages(s, stageIds, resp, refetch).requests[0];
            req.verb == PUT && req.body.Keys == {"stage_ids"} && AsNums(req.body["stage_ids"]) == Some(stageIds)
  {
    NumArrayRoundTrip(stageIds);
  }

  /** Every stage mutation ends with the list the refetch returned when
      both requests succeed, whatever the mutation was; when its own
      request fails nothing is refetched. */
  lemma MutationsEndWithFreshList(s: PipelineStoreState, data: Obj, id: nat, ids: seq<int>, resp: Answer<()>,
                                  stages: seq<ClientStage>)
    requires resp.Answered?
    ensures CreateStage(s, data, resp, Answered(stages)).state == PipelineStoreState(stages, false, None)
    ensures UpdateStage(s, id, data, resp, Answered(stages)).state == PipelineStoreState(stages, false, None)
    ensures DeleteStage(s, id, resp, Answered(stages)).state == PipelineStoreState(stages, false, None)
    ensures ReorderStages(s, ids, resp, Answered(stages)).state == FetchStages(s, Answered(stages)).state
  {
  }
}
