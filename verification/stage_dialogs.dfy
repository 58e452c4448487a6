/** The stage dialogs of the pipeline page
    (`pages/pipeline/components/StageFormDialog.tsx` and
    `StageManagementDialog.tsx`): the create/edit form with the order a new
    stage gets, and the list with its delete guard. */
module StageDialogs {
  import opened Wrappers
  import opened Client
  import PipelineStore
  import PipelinePage

  // ---------------------------------------------------------------------
  // The stage form
  // ---------------------------------------------------------------------

  /** The form's fields. */
  datatype StageForm = StageForm(name: string, probability: int, color: string, isClosedWon: bool, isClosedLost: bool)

  /** What a new stage starts with. */
  const NewStageDefaults := StageForm("", 50, "#8B5CF6", false, false)

  /** The values the form is (re)set to: the edited stage's own fields, or
      the new-stage defaults. */
  function FormFor(stage: Option<ClientStage>): (f: StageForm)
    ensures stage.None? ==> f.name == "" && f.probability == 50 && f.color == "#8B5CF6"
                            && !f.isClosedWon && !f.isClosedLost
    ensures stage.Some? ==> && f.name == stage.value.name && f.probability == stage.value.probability
                            && f.color == stage.value.color
                            && f.isClosedWon == stage.value.isClosedWon && f.isClosedLost == stage.value.isClosedLost
  {
    match stage
    case None => NewStageDefaults
    case Some(s) => StageForm(s.name, s.probability, s.color, s.isClosedWon, s.isClosedLost)
  }

  /** `!stage?.is_default`: the closed-won and closed-lost checkboxes are
      shown for a new stage and for a custom one. */
  function ClosedFlagsOffered(stage: Option<ClientStage>): bool
  {
    !(stage.Some? && stage.value.isDefault)
  }

  /** The user ticks or clears the closed flags; the change only lands when
      the checkboxes are on screen. */
  function SetClosedFlags(stage: Option<ClientStage>, f: StageForm, won: bool, lost: bool): (r: StageForm)
    ensures r.name == f.name && r.probability == f.probability && r.color == f.color
    ensures ClosedFlagsOffered(stage) ==> r.isClosedWon == won && r.isClosedLost == lost
    ensures !ClosedFlagsOffered(stage) ==> r == f
  {
    if ClosedFlagsOffered(stage) then f.(isClosedWon := won, isClosedLost := lost) else f
  }

  /** The form data as the store sends it. */
  function FormBody(f: StageForm): Obj
  {
    map["name" := Str(f.name), "probability" := Num(f.probability), "color" := Str(f.color),
        "is_closed_won" := Bool(f.isClosedWon), "is_closed_lost" := Bool(f.isClosedLost)]
  }

  /** `Math.max(...stages.map(s => s.order))` of a non-empty list. */
  function MaxOrder(stages: seq<ClientStage>): (m: int)
    requires |stages| > 0
    ensures forall i :: 0 <= i < |stages| ==> stages[i].order <= m
    ensures exists i :: 0 <= i < |stages| && stages[i].order == m
  {
    if |stages| == 1 then stages[0].order
    else
      var rest := MaxOrder(stages[1..]);
      assert forall i :: 1 <= i < |stages| ==> stages[i] == stages[1..][i - 1];
      if stages[0].order >= rest then stages[0].order else rest
  }

  /** The order a new stage is created with: one past the largest order,
      or 1 on an empty board.  It is strictly after every existing stage,
      and exactly one past the last one. */
  function NextOrder(stages: seq<ClientStage>): (n: int)
    ensures forall i :: 0 <= i < |stages| ==> stages[i].order < n
    ensures |stages| == 0 ==> n == 1
    ensures |stages| > 0 ==> exists i :: 0 <= i < |stages| && stages[i].order == n - 1
  {
    if |stages| > 0 then MaxOrder(stages) + 1 else 1
  }

  /** A new stage is shown as the last column. */
  lemma NewStageIsLastColumn(stages: seq<ClientStage>, created: ClientStage)
    requires created.order == NextOrder(stages)
    ensures var cols := PipelinePage.Columns(stages + [created]);
            |cols| > 0 && forall i :: 0 <= i < |cols| ==> cols[i].order <= created.order
  {
    var cols := PipelinePage.Columns(stages + [created]);
    assert created in multiset(stages + [created]);
    assert created in multiset(cols);
    forall i | 0 <= i < |cols| ensures cols[i].order <= created.order {
      assert cols[i] in multiset(cols);
      assert cols[i] in stages + [created];
    }
  }

  /** The dialog after a submit, the requests in order, and the toast. */
  datatype FormOutcome = FormOutcome(
    store: PipelineStore.PipelineStoreState, requests: seq<Request>, open: bool, form: StageForm,
    toast: PipelinePage.Toast)

  /** `onSubmit(data)`: an edited stage is patched with the form data and
      no order; a new one is created with the next order.  Success closes
      the dialog and resets the form; a failure keeps it open as filled. */
  function SubmitStage(store: PipelineStore.PipelineStoreState, stage: Option<ClientStage>, data: StageForm,
                       resp: Answer<()>, refetch: Answer<seq<ClientStage>>): (r: FormOutcome)
    ensures |r.requests| >= 1
    ensures stage.Some? ==>
              && r.requests[0] == Request(PATCH, ItemPath(PipelineStore.StagesPath, stage.value.id), map[], FormBody(data))
              && "order" !in r.requests[0].body
    ensures stage.None? ==>
              && r.requests[0].verb == POST && r.requests[0].path == PipelineStore.StagesPath
              && r.requests[0].body == FormBody(data)["order" := Num(NextOrder(store.stages))]
    ensures resp.Answered? && refetch.Answered? ==>
              && !r.open && r.form == FormFor(stage) && r.store.stages == refetch.data
              && r.toast.Success?
    ensures !(resp.Answered? && refetch.Answered?) ==>
              && r.open && r.form == data
              && r.toast == PipelinePage.Error(ErrorMessage(if resp.Failed? then resp.serverError else refetch.serverError,
                                                            "Failed to save stage"))
  {
    SpreadOne(FormBody(data), "order", Num(NextOrder(store.stages)));
    var step := match stage
      case Some(s) => PipelineStore.UpdateStage(store, s.id, FormBody(data), resp, refetch)
      case None => PipelineStore.CreateStage(store, Spread(FormBody(data), map["order" := Num(NextOrder(store.stages))]), resp, refetch);
    var success := if stage.Some? then "Stage updated successfully" else "Custom stage created successfully";
    match step.result
    case Resolved(_) => FormOutcome(step.state, step.requests, false, FormFor(stage), PipelinePage.Success(success))
    case Rejected(e) => FormOutcome(step.state, step.requests, true, data, PipelinePage.Error(ErrorMessage(e, "Failed to save stage")))
  }

  /** Editing a default stage cannot change its closed flags: whatever is
      ticked, the patch carries the flags the stage already had. */
  lemma DefaultStageKeepsClosedFlags(store: PipelineStore.PipelineStoreState, stage: ClientStage, f: StageForm,
                                     won: bool, lost: bool, resp: Answer<()>, refetch: Answer<seq<ClientStage>>)
    requires stage.isDefault
    ensures var body := SubmitStage(store, Some(stage), SetClosedFlags(Some(stage), FormFor(Some(stage)), won, lost),
                                    resp, refetch).requests[0].body;
            body["is_closed_won"] == Bool(stage.isClosedWon) && body["is_closed_lost"] == Bool(stage.isClosedLost)
  {
  }

  // ---------------------------------------------------------------------
  // The stage list
  // ---------------------------------------------------------------------

  /** The list shows the stages in ascending order, like the board. */
  function ListedStages(stages: seq<ClientStage>): (r: seq<ClientStage>)
    ensures multiset(r) == multiset(stages)
    ensures forall i, j :: 0 <= i < j < |r| ==> r[i].order <= r[j].order
    ensures r == PipelinePage.Columns(stages)
  {
    PipelinePage.Columns(stages)
  }

  /** The delete button is disabled for a default stage and while the store
      is loading. */
  function DeleteDisabled(stage: ClientStage, isLoading: bool): bool
  {
    stage.isDefault || isLoading
  }

  datatype ListOutcome = ListOutcome(store: PipelineStore.PipelineStoreState, requests: seq<Request>,
                                     toast: Option<PipelinePage.Toast>)

  /** `handleDeleteStage(stage)`: a default stage is refused on the spot,
      a declined confirmation does nothing, and otherwise the stage is
      deleted through the store. */
  function DeleteStageClicked(store: PipelineStore.PipelineStoreState, stage: ClientStage, confirmed: bool,
                              resp: Answer<()>, refetch: Answer<seq<ClientStage>>): (r: ListOutcome)
    ensures stage.isDefault ==> r == ListOutcome(store, [], Some(PipelinePage.Error("Cannot delete default stages")))
    ensures !stage.isDefault && !confirmed ==> r == ListOutcome(store, [], None)
    ensures r.requests != [] <==> !stage.isDefault && confirmed
    ensures r.requests != [] ==> r.requests[0] == Request(DELETE, ItemPath(PipelineStore.StagesPath, stage.id), map[], map[])
    ensures r.requests != [] && resp.Failed? ==>
              r.toast == Some(PipelinePage.Error(ErrorMessage(resp.serverError, "Failed to delete stage")))
  {
    if stage.isDefault then ListOutcome(store, [], Some(PipelinePage.Error("Cannot delete default stages")))
    else if !confirmed then ListOutcome(store, [], None)
    else
      var step := PipelineStore.DeleteStage(store, stage.id, resp, refetch);
      match step.result
      case Resolved(_) => ListOutcome(step.state, step.requests, Some(PipelinePage.Success("Stage deleted successfully")))
      case Rejected(e) => ListOutcome(step.state, step.requests, Some(PipelinePage.Error(ErrorMessage(e, "Failed to delete stage"))))
  }

  /** A default stage is never deleted from this dialog: its button is
      disabled, and the handler refuses it anyway. */
  lemma DefaultStageIsNeverDeleted(store: PipelineStore.PipelineStoreState, stage: ClientStage, isLoading: bool,
                                   confirmed: bool, resp: Answer<()>, refetch: Answer<seq<ClientStage>>)
    requires stage.isDefault
    ensures DeleteDisabled(stage, isLoading)
    ensures DeleteStageClicked(store, stage, confirmed, resp, refetch).requests == []
    ensures DeleteStageClicked(store, stage, confirmed, resp, refetch).store == store
  {
  }
}
