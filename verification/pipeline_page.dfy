/** The pipeline board (`pages/pipeline/PipelinePage.tsx`): deals grouped
    into one column per stage, the columns in stage order, the pipeline
    total over the per-stage values, and the drag-and-drop move together
    with the menu actions that refresh the values afterwards. */
module PipelinePage {
  import opened Wrappers
  import opened Seqs
  import opened Client
  import DealStore

  // ---------------------------------------------------------------------
  // Columns
  // ---------------------------------------------------------------------

  /** `deal.stage?.id || deal.stage_id`: the nested stage's id unless it
      is absent or zero (falsy), in which case the plain `stage_id`. */
  function DealStageId(d: ClientDeal): Option<nat>
  {
    if d.stage.Some? && d.stage.value.id != 0 then Some(d.stage.value.id) else d.stageId
  }

  /** `getDealsByStage(stageId)`: the deals of one column, in list order. */
  function DealsByStage(deals: seq<ClientDeal>, stageId: nat): (r: seq<ClientDeal>)
    ensures forall d :: d in r <==> d in deals && DealStageId(d) == Some(stageId)
    ensures IsSubsequence(r, deals)
  {
    FilterIsSubsequence(deals, d => DealStageId(d) == Some(stageId));
    Filter(deals, d => DealStageId(d) == Some(stageId))
  }

  /** Each deal is shown in at most one column; a nested stage with a
      non-zero id decides the column even when `stage_id` disagrees, and
      a deal with neither is in no column. */
  lemma AtMostOneColumn(deals: seq<ClientDeal>, d: ClientDeal, a: nat, b: nat)
    ensures d in DealsByStage(deals, a) && d in DealsByStage(deals, b) ==> a == b
    ensures d in deals && d.stage.Some? && d.stage.value.id != 0 ==>
              (d in DealsByStage(deals, a) <==> a == d.stage.value.id)
    ensures d in deals && d.stage.None? && d.stageId.None? ==> d !in DealsByStage(deals, a)
  {
  }

  /** Columns are drawn by ascending `order` (`a.order - b.order`). */
  function ByOrder(a: ClientStage, b: ClientStage): bool
  {
    a.order <= b.order
  }

  /** `stages.sort((a, b) => a.order - b.order)`: the same stages, in
      ascending order; the sort is stable, as JavaScript's is. */
  function Columns(stages: seq<ClientStage>): (r: seq<ClientStage>)
    ensures multiset(r) == multiset(stages)
    ensures forall i, j :: 0 <= i < j < |r| ==> r[i].order <= r[j].order
  {
    assert TotalPreorder(ByOrder);
    SortBySorted(stages, ByOrder);
    SortBy(stages, ByOrder)
  }

  // ---------------------------------------------------------------------
  // Pipeline values
  // ---------------------------------------------------------------------

  /** `pipelineValues[stage.id] || 0`: a stage without an entry shows 0. */
  function StageValue(m: map<nat, int>, stageId: nat): (v: int)
    ensures stageId in m ==> v == m[stageId]
    ensures stageId !in m ==> v == 0
  {
    if stageId in m then m[stageId] else 0
  }

  predicate IsLeast(keys: set<nat>, k: nat)
  {
    k in keys && forall j :: j in keys ==> k <= j
  }

  lemma {:induction false} MinKeyExists(keys: set<nat>)
    requires keys != {}
    ensures exists k :: IsLeast(keys, k)
    decreases |keys|
  {
    var x :| x in keys;
    var rest := keys - {x};
    if rest == {} {
      assert keys == {x};
      assert IsLeast(keys, x);
    } else {
      MinKeyExists(rest);
      var m :| m in rest && forall j :: j in rest ==> m <= j;
      var least := if x < m then x else m;
      forall j | j in keys ensures least <= j {
        if j != x { assert j in rest; }
      }
      assert IsLeast(keys, least);
    }
  }

  /** The least stage id among the keys (JavaScript visits integer keys
      in ascending order). */
  function MinKey(keys: set<nat>): (k: nat)
    requires keys != {}
    ensures k in keys && forall j :: j in keys ==> k <= j
  {
    MinKeyExists(keys);
    var k :| IsLeast(keys, k); k
  }

  /** `Object.values(pipelineValues).reduce((sum, val) => sum + val, 0)`. */
  function TotalValue(m: map<nat, int>): int
    decreases |m.Keys|
  {
    if m.Keys == {} then 0
    else
      var k := MinKey(m.Keys);
      assert (m - {k}).Keys == m.Keys - {k};
      m[k] + TotalValue(m - {k})
  }

  /** The total does not depend on the order the values are visited in:
      any one entry can be taken out first. */
  lemma {:induction false} TotalValueRemove(m: map<nat, int>, k: nat)
    requires k in m
    ensures TotalValue(m) == m[k] + TotalValue(m - {k})
    decreases |m.Keys|
  {
    var k0 := MinKey(m.Keys);
    if k0 != k {
      assert (m - {k0}).Keys == m.Keys - {k0};
      assert (m - {k}).Keys == m.Keys - {k};
      TotalValueRemove(m - {k0}, k);
      TotalValueRemove(m - {k}, k0);
      assert (m - {k0}) - {k} == (m - {k}) - {k0};
    }
  }

  /** The values shown under the columns, added up left to right. */
  function ColumnTotal(m: map<nat, int>, stages: seq<ClientStage>): int
  {
    if |stages| == 0 then 0 else StageValue(m, stages[0].id) + ColumnTotal(m, stages[1..])
  }

  lemma {:induction false} ColumnTotalIgnores(m: map<nat, int>, k: nat, stages: seq<ClientStage>)
    requires forall i :: 0 <= i < |stages| ==> stages[i].id != k
    ensures ColumnTotal(m - {k}, stages) == ColumnTotal(m, stages)
  {
    if |stages| > 0 {
      ColumnTotalIgnores(m, k, stages[1..]);
    }
  }

  /** Stage ids of the board are distinct. */
  predicate DistinctIds(stages: seq<ClientStage>)
  {
    forall i, j :: 0 <= i < j < |stages| ==> stages[i].id != stages[j].id
  }

  /** Every stage that has a value has a column. */
  predicate CoversValues(m: map<nat, int>, stages: seq<ClientStage>)
  {
    forall k :: k in m ==> exists i :: 0 <= i < |stages| && stages[i].id == k
  }

  /** The header's pipeline value equals the sum of the values shown under
      the columns whenever the columns are distinct stages covering every
      valued stage. */
  lemma {:induction false} HeaderTotalMatchesColumns(m: map<nat, int>, stages: seq<ClientStage>)
    requires DistinctIds(stages) && CoversValues(m, stages)
    ensures TotalValue(m) == ColumnTotal(m, stages)
    decreases |stages|
  {
    if |stages| == 0 {
      assert m.Keys == {} by {
        forall k | k in m ensures false { }
      }
    } else {
      var s0 := stages[0].id;
      var rest := stages[1..];
      assert forall i :: 0 <= i < |rest| ==> rest[i].id != s0 by {
        forall i | 0 <= i < |rest| ensures rest[i].id != s0 {
          assert rest[i] == stages[i + 1];
        }
      }
      assert DistinctIds(rest) by {
        forall i, j | 0 <= i < j < |rest| ensures rest[i].id != rest[j].id {
          assert rest[i] == stages[i + 1] && rest[j] == stages[j + 1];
        }
      }
      var m' := m - {s0};
      assert CoversValues(m', rest) by {
        forall k | k in m' ensures exists i :: 0 <= i < |rest| && rest[i].id == k {
          var i :| 0 <= i < |stages| && stages[i].id == k;
          assert i != 0;
          assert rest[i - 1].id == k;
        }
      }
      HeaderTotalMatchesColumns(m', rest);
      ColumnTotalIgnores(m, s0, rest);
      if s0 in m {
        TotalValueRemove(m, s0);
      } else {
        assert m' == m;
      }
    }
  }

  // ---------------------------------------------------------------------
  // Drag and drop, and the card menu
  // ---------------------------------------------------------------------

  /** What the board holds besides the stores: the deal being dragged. */
  datatype Board = Board(store: DealStore.DealStoreState, dragged: Option<ClientDeal>)

  datatype Toast = Success(text: string) | Error(text: string)

  /** The board afterwards, the requests in order, and the toast shown. */
  datatype Outcome = Outcome(board: Board, requests: seq<Request>, toast: Option<Toast>)

  /** `handleDrop(stageId)`: nothing without a dragged deal; a drop on the
      deal's own column only ends the drag; otherwise `moveDeal`, and only
      if it resolved `fetchPipelineValues`, each awaited in turn.  Any
      rejection shows the fixed error toast; the drag ends either way. */
  function HandleDrop(b: Board, stageId: nat, move: Answer<()>, refetch: Answer<DealStore.DealsResponse>,
                      values: Answer<map<nat, int>>): (r: Outcome)
    ensures b.dragged.None? ==> r == Outcome(b, [], None)
    ensures b.dragged.Some? ==> r.board.dragged.None?
    ensures b.dragged.Some? && DealStageId(b.dragged.value) == Some(stageId) ==>
              r == Outcome(b.(dragged := None), [], None)
    ensures b.dragged.Some? && DealStageId(b.dragged.value) != Some(stageId) ==>
              var put := Request(PUT, ItemPath("/deals", b.dragged.value.id) + "/move", map[], DealStore.MoveBody(stageId));
              && (move.Failed? ==> r.requests == [put])
              && (move.Answered? && refetch.Failed? ==> r.requests == [put, Get("/deals", b.store.filters)])
              && (move.Answered? && refetch.Answered? ==>
                    r.requests == [put, Get("/deals", b.store.filters), Get("/deals/pipeline-value", map[])])
              && (r.toast == Some(Success("Deal moved successfully")) <==>
                    move.Answered? && refetch.Answered? && values.Answered?)
              && (r.toast != Some(Success("Deal moved successfully")) ==> r.toast == Some(Error("Failed to move deal")))
              && (move.Answered? && refetch.Answered? && values.Answered? ==>
                    r.board.store.pipelineValues == values.data && r.board.store.deals == refetch.data.deals)
  {
    match b.dragged
    case None => Outcome(b, [], None)
    case Some(d) =>
      if DealStageId(d) == Some(stageId) then Outcome(b.(dragged := None), [], None)
      else
        var m := DealStore.MoveDeal(b.store, d.id, stageId, move, refetch);
        if m.result.Rejected? then Outcome(Board(m.state, None), m.requests, Some(Error("Failed to move deal")))
        else
          var v := DealStore.FetchPipelineValues(m.state, values);
          var toast := if v.result.Resolved? then Success("Deal moved successfully") else Error("Failed to move deal");
          Outcome(Board(v.state, None), m.requests + v.requests, Some(toast))
  }

  /** The tail the card menu's actions share: after the store action
      resolves, `fetchPipelineValues()`; a rejection of either shows the
      server's message or the fallback. */
  function RefreshValuesAfter<T>(b: Board, step: Step<DealStore.DealStoreState, T>, values: Answer<map<nat, int>>,
                                 success: string, fallback: string): (r: Outcome)
    ensures r.board.dragged == b.dragged
    ensures step.result.Rejected? ==>
              r == Outcome(b.(store := step.state), step.requests, Some(Error(ErrorMessage(step.result.serverError, fallback))))
    ensures step.result.Resolved? ==>
              && r.requests == step.requests + [Get("/deals/pipeline-value", map[])]
              && (values.Answered? ==> r.toast == Some(Success(success)) && r.board.store.pipelineValues == values.data)
              && (values.Failed? ==> r.toast == Some(Error(ErrorMessage(values.serverError, fallback))))
  {
    match step.result
    case Rejected(e) => Outcome(b.(store := step.state), step.requests, Some(Error(ErrorMessage(e, fallback))))
    case Resolved(_) =>
      var v := DealStore.FetchPipelineValues(step.state, values);
      match v.result
      case Resolved(_) => Outcome(b.(store := v.state), step.requests + v.requests, Some(Success(success)))
      case Rejected(e) => Outcome(b.(store := v.state), step.requests + v.requests, Some(Error(ErrorMessage(e, fallback))))
  }

  /** `handleDeleteDeal(id)`: nothing unless the user confirms. */
  function HandleDeleteDeal(b: Board, id: nat, confirmed: bool, resp: Answer<()>,
                            refetch: Answer<DealStore.DealsResponse>, values: Answer<map<nat, int>>): (r: Outcome)
    ensures !confirmed ==> r == Outcome(b, [], None)
    ensures confirmed ==> |r.requests| >= 1 && r.requests[0] == Request(DELETE, ItemPath("/deals", id), map[], map[])
    ensures confirmed && resp.Answered? && refetch.Answered? ==>
              |r.requests| == 3 && r.requests[2] == Get("/deals/pipeline-value", map[])
    ensures confirmed && resp.Failed? ==> r.requests == [Request(DELETE, ItemPath("/deals", id), map[], map[])]
  {
    if !confirmed then Outcome(b, [], None)
    else
      RefreshValuesAfter(b, DealStore.DeleteDeal(b.store, id, resp, refetch), values,
                         "Deal deleted successfully", "Failed to delete deal")
  }

  /** `handleMarkAsWon` / `handleMarkAsLost`: the status change, then the
      values. */
  function HandleMarkStatus(b: Board, id: nat, won: bool, resp: Answer<()>,
                            refetch: Answer<DealStore.DealsResponse>, values: Answer<map<nat, int>>): (r: Outcome)
    ensures |r.requests| >= 1
    ensures r.requests[0] == Request(PUT, ItemPath("/deals", id) + "/status", map[],
                                     map["status" := Str(if won then "won" else "lost")])
    ensures resp.Answered? && refetch.Answered? ==>
              |r.requests| == 3 && r.requests[2] == Get("/deals/pipeline-value", map[])
  {
    var status := if won then "won" else "lost";
    var success := if won then "Deal marked as won! \U{1F389}" else "Deal marked as lost";
    RefreshValuesAfter(b, DealStore.UpdateDealStatus(b.store, id, status, resp, refetch), values,
                       success, "Failed to update deal status")
  }
}
