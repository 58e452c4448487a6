/** The pipeline-stage endpoints (`handler/pipeline_stage_handler.go`). */
module StageHandler {
  import opened Wrappers
  import opened Seqs
  import opened Entities
  import opened Strconv
  import opened Http
  import opened StageRepo
  import StageService

  const InvalidStageId := "Invalid stage ID"
  const StageIdsEmpty := "stage_ids cannot be empty"
  const StageCreated := "Stage created successfully"
  const StageUpdated := "Stage updated successfully"
  const StageDeleted := "Stage deleted successfully"
  const StagesReordered := "Stages reordered successfully"

  /** The body of a stage listing. */
  datatype StageList = StageList(stages: seq<Stage>, total: nat)

  /** `GET /pipeline/stages`: the tenant's stages (the defaults are created
      on first use) and their number. */
  function GetStages(db: Db, tenant: nat): (r: (Db, Reply<StageList>))
    ensures r.1.Reply? && r.1.status == StatusOK
    ensures r.1.data.total == |r.1.data.stages| && r.1.data.total > 0
    ensures Sorted(r.1.data.stages, ByOrder)
    ensures forall s :: s in r.1.data.stages <==> s in r.0.stages && s.tenantId == tenant
  {
    var (db', stages) := StageService.GetStages(db, tenant);
    (db', Reply(StatusOK, "", StageList(stages, |stages|)))
  }

  /** `GET /pipeline/stages/:id`. */
  function GetStage(db: Db, tenant: nat, idParam: string): (r: Reply<Stage>)
    ensures ParseUint32(idParam).None? ==> r == Error(StatusBadRequest, InvalidStageId)
    ensures r.Reply? <==> ParseUint32(idParam).Some? && FindStage(db.stages, tenant, ParseUint32(idParam).value).Some?
    ensures r.Reply? ==> r.status == StatusOK && r.data in db.stages && r.data.tenantId == tenant
                         && r.data.id == ParseUint32(idParam).value
    ensures ParseUint32(idParam).Some? && r.Error? ==> r == Error(StatusNotFound, StageService.StageNotFound)
  {
    match ParseUint32(idParam)
    case None => Error(StatusBadRequest, InvalidStageId)
    case Some(id) =>
      match StageService.GetStageByID(db, tenant, id)
      case Err(e) => Error(StatusNotFound, e)
      case Ok(s) => Reply(StatusOK, "", s)
  }

  /** `POST /pipeline/stages`: a stage created through the API always
      belongs to the caller's tenant and is never a default stage. */
  function CreateStage(db: Db, tenant: nat, user: nat, body: Result<Stage>): (r: (Db, Reply<Stage>))
    ensures body.Err? ==> r == (db, Error(StatusBadRequest, body.msg))
    ensures r.1.Error? ==> r.0 == db && r.1.status == StatusBadRequest
    ensures r.1.Reply? <==> body.Ok? && StageService.CreateStage(db, body.value.(tenantId := tenant, isDefault := false)).Ok?
    ensures r.1.Reply? ==> var s := r.1.data;
              && r.1.status == StatusCreated && r.1.message == StageCreated
              && s.tenantId == tenant && !s.isDefault && s.id == db.nextId
              && r.0.stages == db.stages + [s]
              && r.0.auditLogs == db.auditLogs + [AuditLog(tenant, user, "create", "pipeline_stage", s.id)]
  {
    match body
    case Err(e) => (db, Error(StatusBadRequest, e))
    case Ok(req) =>
      match StageService.CreateStage(db, req.(tenantId := tenant, isDefault := false))
      case Err(e) => (db, Error(StatusBadRequest, e))
      case Ok((db', s)) => (Audit(db', tenant, user, "create", "pipeline_stage", s.id), Reply(StatusCreated, StageCreated, s))
  }

  /** Whatever tenant and default flag the body claims, the created stage
      is the same. */
  lemma CreateIgnoresClaimedFields(db: Db, tenant: nat, user: nat, s: Stage, claimedTenant: nat, claimedDefault: bool)
    ensures CreateStage(db, tenant, user, Ok(s))
            == CreateStage(db, tenant, user, Ok(s.(tenantId := claimedTenant, isDefault := claimedDefault)))
  {
  }

  /** `PATCH /pipeline/stages/:id`: the id comes from the path, overriding
      the body's. */
  function UpdateStage(db: Db, tenant: nat, user: nat, idParam: string, body: Result<Stage>): (r: (Db, Reply<Stage>))
    ensures ParseUint32(idParam).None? ==> r == (db, Error(StatusBadRequest, InvalidStageId))
    ensures r.1.Error? ==> r.0 == db && r.1.status == StatusBadRequest
    ensures r.1.Reply? ==> && ParseUint32(idParam).Some? && body.Ok?
                           && r.1.data == body.value.(id := ParseUint32(idParam).value, tenantId := tenant)
                           && StageService.UpdateStage(db, tenant, body.value.(id := ParseUint32(idParam).value)).Ok?
                           && r.0 == Audit(StageService.UpdateStage(db, tenant, body.value.(id := ParseUint32(idParam).value)).value,
                                           tenant, user, "update", "pipeline_stage", r.1.data.id)
    ensures r.1.Reply? ==> forall k :: 0 <= k < |db.stages| ==>
              r.0.stages[k] == if db.stages[k].id == r.1.data.id
                               then ApplyStagePatch(db.stages[k], r.1.data) else db.stages[k]
  {
    match ParseUint32(idParam)
    case None => (db, Error(StatusBadRequest, InvalidStageId))
    case Some(id) =>
      match body
      case Err(e) => (db, Error(StatusBadRequest, e))
      case Ok(req) =>
        match StageService.UpdateStage(db, tenant, req.(id := id))
        case Err(e) => (db, Error(StatusBadRequest, e))
        case Ok(db') => (Audit(db', tenant, user, "update", "pipeline_stage", id), Reply(StatusOK, StageUpdated, req.(id := id, tenantId := tenant)))
  }

  /** Whatever id the body carries, the path decides which stage is
      updated. */
  lemma PathIdWins(db: Db, tenant: nat, user: nat, idParam: string, s: Stage, otherId: nat)
    ensures UpdateStage(db, tenant, user, idParam, Ok(s)) == UpdateStage(db, tenant, user, idParam, Ok(s.(id := otherId)))
  {
  }

  /** `DELETE /pipeline/stages/:id`: every service error is answered 400. */
  function DeleteStage(db: Db, tenant: nat, user: nat, idParam: string): (r: (Db, Reply<()>))
    ensures ParseUint32(idParam).None? ==> r == (db, Error(StatusBadRequest, InvalidStageId))
    ensures r.1.Error? ==> r.0 == db && r.1.status == StatusBadRequest
    ensures r.1.Reply? <==> && ParseUint32(idParam).Some?
                            && FindStage(db.stages, tenant, ParseUint32(idParam).value).Some?
                            && CountDealsByStage(db.deals, tenant, ParseUint32(idParam).value) == 0
    ensures r.1.Reply? ==> && r.1 == Reply(StatusOK, StageDeleted, ())
                           && r.0 == Audit(db.(stages := DeleteStageRow(db.stages, tenant, ParseUint32(idParam).value)),
                                           tenant, user, "delete", "pipeline_stage", ParseUint32(idParam).value)
  {
    match ParseUint32(idParam)
    case None => (db, Error(StatusBadRequest, InvalidStageId))
    case Some(id) =>
      match StageService.DeleteStage(db, tenant, id)
      case Err(e) => (db, Error(StatusBadRequest, e))
      case Ok(db') => (Audit(db', tenant, user, "delete", "pipeline_stage", id), Reply(StatusOK, StageDeleted, ()))
  }

  /** `PUT /pipeline/stages/reorder`.  `body` is the decoder's outcome, with
      `None` for a missing or null `stage_ids` (refused by the `required`
      tag); an empty list is refused by the handler itself.  `failure` is
      the database's answer to the order writes.  The audit entry names
      no single stage. */
  method ReorderStages(db: Db, tenant: nat, user: nat, body: Result<Option<seq<nat>>>, failure: Option<DbFailure>)
    returns (r: (Db, Reply<()>))
    ensures body.Err? ==> r == (db, Error(StatusBadRequest, body.msg))
    ensures body == Ok(None) ==> r == (db, Error(StatusBadRequest, RequiredFieldError("StageIDs")))
    ensures body == Ok(Some([])) ==> r == (db, Error(StatusBadRequest, StageIdsEmpty))
    ensures r.1.Error? ==> r.0 == db && r.1.status == StatusBadRequest
    ensures r.1.Reply? ==> && body.Ok? && body.value.Some? && |body.value.value| > 0
                           && r.1 == Reply(StatusOK, StagesReordered, ())
                           && |r.0.auditLogs| == |db.auditLogs| + 1
                           && r.0.auditLogs[|db.auditLogs|] == AuditLog(tenant, user, "reorder", "pipeline_stage", 0)
                           && forall k :: 0 <= k < |db.stages| ==>
                                |r.0.stages| == |db.stages| && r.0.stages[k] == ReorderedRow(db.stages[k], tenant, body.value.value)
    ensures r.1.Reply? && Valid(db) ==> Valid(r.0)
  {
    match body
    case Err(e) => return (db, Error(StatusBadRequest, e));
    case Ok(None) => return (db, Error(StatusBadRequest, RequiredFieldError("StageIDs")));
    case Ok(Some(ids)) =>
      if |ids| == 0 {
        return (db, Error(StatusBadRequest, StageIdsEmpty));
      }
      var res := StageService.ReorderStages(db, tenant, ids, failure);
      match res
      case Err(e) => return (db, Error(StatusBadRequest, e));
      case Ok(db') =>
        return (Audit(db', tenant, user, "reorder", "pipeline_stage", 0), Reply(StatusOK, StagesReordered, ()));
  }
}
