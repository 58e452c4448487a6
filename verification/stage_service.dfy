/** Pipeline-stage business rules (`service/pipeline_stage_service.go`) and
    the fields its HTTP handler forces (`handler/pipeline_stage_handler.go`). */
module StageService {
  import opened Wrappers
  import opened Seqs
  import opened Entities
  import opened StageRepo

  const StageNotFound := "stage not found"
  const StageNameRequired := "stage name is required"
  const ProbabilityRange := "probability must be between 0 and 100"
  const StageHasDeals := "cannot delete stage with existing deals"
  const StagesNotFound := "one or more stages not found"
  const DefaultStageColor := "#3B82F6"

  predicate ValidProbability(p: int) { 0 <= p <= 100 }

  /** `GetStages`: a tenant with no stages first gets the six defaults;
      then the tenant's stages are returned by ascending order. */
  function GetStages(db: Db, tenant: nat): (r: (Db, seq<Stage>))
    ensures CountStages(db.stages, tenant) > 0 ==> r.0 == db
    ensures CountStages(db.stages, tenant) == 0 ==>
              r.0 == CreateDefaultStages(db, tenant) && multiset(r.1) == multiset(DefaultStages(tenant, db.nextId))
    ensures Sorted(r.1, ByOrder)
    ensures forall s :: s in r.1 <==> s in r.0.stages && s.tenantId == tenant
    ensures |r.1| > 0
  {
    var db' := if CountStages(db.stages, tenant) == 0 then CreateDefaultStages(db, tenant) else db;
    var stages := FindAllStages(db'.stages, tenant);
    FindAllSortedByOrder(db'.stages, tenant);
    if CountStages(db.stages, tenant) == 0 then
      DefaultsAreTheTenantsStages(db.stages, tenant, db.nextId);
      (db', stages)
    else
      var k :| 0 <= k < |db.stages| && db.stages[k].tenantId == tenant;
      assert db.stages[k] in stages;
      (db', stages)
  }

  /** After the lazy initialisation the tenant's stages are exactly the six
      defaults. */
  lemma DefaultsAreTheTenantsStages(stages: seq<Stage>, tenant: nat, firstId: nat)
    requires CountStages(stages, tenant) == 0
    ensures multiset(FindAllStages(stages + DefaultStages(tenant, firstId), tenant)) == multiset(DefaultStages(tenant, firstId))
  {
    var d := DefaultStages(tenant, firstId);
    FilterAppend(stages, d, (s: Stage) => s.tenantId == tenant);
    FilterEmptyIff(stages, (s: Stage) => s.tenantId == tenant);
    FilterAll(d, (s: Stage) => s.tenantId == tenant);
  }

  /** Lazy initialisation keeps the database well formed. */
  lemma GetStagesKeepsValid(db: Db, tenant: nat)
    requires Valid(db)
    ensures Valid(GetStages(db, tenant).0)
  {
    if CountStages(db.stages, tenant) == 0 {
      CreateDefaultStagesKeepsValid(db, tenant);
    }
  }

  lemma CreateDefaultStagesKeepsValid(db: Db, tenant: nat)
    requires Valid(db)
    ensures Valid(CreateDefaultStages(db, tenant))
  {
    var db' := CreateDefaultStages(db, tenant);
    var d := DefaultStages(tenant, db.nextId);
    AppendBatchKeepsKeys(db.stages, d, StageKey, db.nextId, db'.nextId);
    ValidAfter(db, db');
  }

  /** Lazy initialisation touches no other tenant's stages. */
  lemma GetStagesIsolated(db: Db, tenant: nat, other: nat)
    requires other != tenant
    ensures StagesOf(GetStages(db, tenant).0.stages, other) == StagesOf(db.stages, other)
  {
    if CountStages(db.stages, tenant) == 0 {
      var d := DefaultStages(tenant, db.nextId);
      FilterAppend(db.stages, d, (s: Stage) => s.tenantId == other);
      FilterNone(d, (s: Stage) => s.tenantId == other);
    }
  }

  /** `GetStageByID`. */
  function GetStageByID(db: Db, tenant: nat, id: nat): (r: Result<Stage>)
    ensures r.Ok? <==> FindStage(db.stages, tenant, id).Some?
    ensures r.Ok? ==> r.value in db.stages && r.value.id == id && r.value.tenantId == tenant
    ensures r.Err? ==> r.msg == StageNotFound
  {
    match FindStage(db.stages, tenant, id)
    case None => Err(StageNotFound)
    case Some(s) => Ok(s)
  }

  /** `CreateStage`: name and probability are validated, an empty color
      becomes blue, and the stage is inserted under a fresh key. */
  function CreateStage(db: Db, stage: Stage): (r: Result<(Db, Stage)>)
    ensures stage.name == "" ==> r == Err(StageNameRequired)
    ensures stage.name != "" && !ValidProbability(stage.probability) ==> r == Err(ProbabilityRange)
    ensures r.Ok? <==> stage.name != "" && ValidProbability(stage.probability)
    ensures r.Ok? ==> var (db', s) := r.value;
              && db'.stages == db.stages + [s]
              && s.id == db.nextId && db'.nextId == db.nextId + 1
              && (stage.color == "" ==> s.color == DefaultStageColor)
              && (stage.color != "" ==> s.color == stage.color)
              && s == stage.(id := s.id, color := s.color)
              && db' == db.(stages := db'.stages, nextId := db'.nextId)
  {
    if stage.name == "" then Err(StageNameRequired)
    else if !ValidProbability(stage.probability) then Err(ProbabilityRange)
    else
      var s := stage.(id := db.nextId, color := if stage.color == "" then DefaultStageColor else stage.color);
      Ok((db.(stages := db.stages + [s], nextId := db.nextId + 1), s))
  }

  /** `UpdateStage`: the stage must exist in the tenant; its tenant is kept;
      the probability is validated; then the non-zero fields are written. */
  function UpdateStage(db: Db, tenant: nat, stage: Stage): (r: Result<Db>)
    ensures FindStage(db.stages, tenant, stage.id).None? ==> r == Err(StageNotFound)
    ensures FindStage(db.stages, tenant, stage.id).Some? && !ValidProbability(stage.probability) ==> r == Err(ProbabilityRange)
    ensures r.Ok? <==> FindStage(db.stages, tenant, stage.id).Some? && ValidProbability(stage.probability)
    ensures r.Ok? ==> r.value == db.(stages := r.value.stages)
    ensures r.Ok? ==> (|r.value.stages| == |db.stages|
                       && forall k :: 0 <= k < |db.stages| ==> r.value.stages[k].id == db.stages[k].id)
    ensures r.Ok? && Valid(db) ==>
              forall k :: 0 <= k < |db.stages| ==> r.value.stages[k].tenantId == db.stages[k].tenantId
    ensures r.Ok? ==> forall k :: 0 <= k < |db.stages| && db.stages[k].id != stage.id ==>
              r.value.stages[k] == db.stages[k]
    ensures r.Ok? ==> forall k :: 0 <= k < |db.stages| && db.stages[k].id == stage.id ==>
              r.value.stages[k] == ApplyStagePatch(db.stages[k], stage.(tenantId := FindStage(db.stages, tenant, stage.id).value.tenantId))
  {
    match FindStage(db.stages, tenant, stage.id)
    case None => Err(StageNotFound)
    case Some(existing) =>
      var patch := stage.(tenantId := existing.tenantId);
      if !ValidProbability(patch.probability) then Err(ProbabilityRange)
      else
        var stages' := UpdateStageRow(db.stages, patch);
        assert Valid(db) ==> forall k :: 0 <= k < |db.stages| && db.stages[k].id == stage.id ==>
                               db.stages[k] == existing by {
          if Valid(db) {
            OnlyRowWithKey(db.stages, StageKey, db.nextId, existing);
          }
        }
        Ok(db.(stages := stages'))
  }

  /** After an update, looking the stage up again in its tenant finds the
      stored stage with every non-zero field of the request written over
      it and its tenant unchanged. */
  lemma UpdateThenFind(db: Db, tenant: nat, stage: Stage)
    requires Valid(db) && UpdateStage(db, tenant, stage).Ok?
    ensures var existing := FindStage(db.stages, tenant, stage.id).value;
            FindStage(UpdateStage(db, tenant, stage).value.stages, tenant, stage.id)
              == Some(ApplyStagePatch(existing, stage.(tenantId := tenant)))
  {
    var existing := FindStage(db.stages, tenant, stage.id).value;
    var patched := ApplyStagePatch(existing, stage.(tenantId := tenant));
    var rows := UpdateStage(db, tenant, stage).value.stages;
    OnlyRowWithKey(db.stages, StageKey, db.nextId, existing);
    assert forall k :: 0 <= k < |rows| && rows[k].id == stage.id ==> rows[k] == patched;
    var k0 :| 0 <= k0 < |db.stages| && db.stages[k0] == existing;
    assert rows[k0] == patched;
    FindOnlyMatch(rows, tenant, stage.id, k0);
  }

  /** When every row with the key is one and the same stage of the tenant,
      the lookup finds it. */
  lemma FindOnlyMatch(stages: seq<Stage>, tenant: nat, id: nat, k0: nat)
    requires k0 < |stages| && stages[k0].id == id && stages[k0].tenantId == tenant
    requires forall k :: 0 <= k < |stages| && stages[k].id == id ==> stages[k] == stages[k0]
    ensures FindStage(stages, tenant, id) == Some(stages[k0])
  {
    var found := FindStage(stages, tenant, id);
    assert found.Some?;
    var j :| 0 <= j < |stages| && stages[j] == found.value;
  }

  /** `DeleteStage`: a stage with deals (of the tenant) cannot be deleted;
      the default flag is not consulted. */
  function DeleteStage(db: Db, tenant: nat, id: nat): (r: Result<Db>)
    ensures FindStage(db.stages, tenant, id).None? ==> r == Err(StageNotFound)
    ensures FindStage(db.stages, tenant, id).Some? && CountDealsByStage(db.deals, tenant, id) > 0 ==> r == Err(StageHasDeals)
    ensures r.Ok? <==> FindStage(db.stages, tenant, id).Some? && CountDealsByStage(db.deals, tenant, id) == 0
    ensures r.Ok? ==> r.value == db.(stages := DeleteStageRow(db.stages, tenant, id))
  {
    if FindStage(db.stages, tenant, id).None? then Err(StageNotFound)
    else if CountDealsByStage(db.deals, tenant, id) > 0 then Err(StageHasDeals)
    else Ok(db.(stages := DeleteStageRow(db.stages, tenant, id)))
  }

  /** `ReorderStages`: every id must name a stage of the tenant before any
      order is written. */
  method ReorderStages(db: Db, tenant: nat, ids: seq<nat>, failure: Option<DbFailure>) returns (r: Result<Db>)
    ensures (exists i :: 0 <= i < |ids| && FindStage(db.stages, tenant, ids[i]).None?) ==> r == Err(StagesNotFound)
    ensures r.Ok? ==> forall i :: 0 <= i < |ids| ==> FindStage(db.stages, tenant, ids[i]).Some?
    ensures r.Ok? ==> (r.value == db.(stages := r.value.stages)
                       && |r.value.stages| == |db.stages|
                       && forall k :: 0 <= k < |db.stages| ==> r.value.stages[k] == ReorderedRow(db.stages[k], tenant, ids))
    ensures ((forall i :: 0 <= i < |ids| ==> FindStage(db.stages, tenant, ids[i]).Some?)
             && (failure.None? || failure.value.step >= |ids|)) ==> r.Ok?
    ensures r.Ok? && Valid(db) ==> Valid(r.value)
  {
    var i := 0;
    while i < |ids|
      invariant 0 <= i <= |ids|
      invariant forall j :: 0 <= j < i ==> FindStage(db.stages, tenant, ids[j]).Some?
    {
      if FindStage(db.stages, tenant, ids[i]).None? {
        return Err(StagesNotFound);
      }
      i := i + 1;
    }
    var res := Reorder(db.stages, tenant, ids, failure);
    match res
    case Err(msg) => return Err(msg);
    case Ok(stages') =>
      if Valid(db) {
        SameKeysKeepsKeys(db.stages, stages', StageKey, db.nextId);
        ValidAfter(db, db.(stages := stages'));
      }
      return Ok(db.(stages := stages'));
  }

  /** Every successful stage mutation keeps the database well formed. */
  lemma StageMutationsKeepValid(db: Db, tenant: nat, stage: Stage, id: nat)
    requires Valid(db)
    ensures CreateStage(db, stage).Ok? ==> Valid(CreateStage(db, stage).value.0)
    ensures UpdateStage(db, tenant, stage).Ok? ==> Valid(UpdateStage(db, tenant, stage).value)
    ensures DeleteStage(db, tenant, id).Ok? ==> Valid(DeleteStage(db, tenant, id).value)
  {
    if CreateStage(db, stage).Ok? {
      var (db', s) := CreateStage(db, stage).value;
      AppendBatchKeepsKeys(db.stages, [s], StageKey, db.nextId, db'.nextId);
      ValidAfter(db, db');
    }
    if UpdateStage(db, tenant, stage).Ok? {
      var db' := UpdateStage(db, tenant, stage).value;
      SameKeysKeepsKeys(db.stages, db'.stages, StageKey, db.nextId);
      ValidAfter(db, db');
    }
    if DeleteStage(db, tenant, id).Ok? {
      var db' := DeleteStage(db, tenant, id).value;
      FilterKeepsKeys(db.stages, StageKey, db.nextId, (s: Stage) => !(s.id == id && s.tenantId == tenant));
      ValidAfter(db, db');
    }
  }
}
