/** Deal business rules (`service/deal_service.go`). */
module DealService {
  import opened Wrappers
  import opened Seqs
  import opened Entities
  import opened StageRepo
  import opened ContactRepo
  import opened DealRepo

  const DealNotFound := "deal not found"
  const TitleRequired := "deal title is required"
  const StageRequired := "stage_id is required"
  const InvalidStage := "invalid stage_id: stage not found"
  const InvalidContact := "invalid contact_id: contact not found"
  const InvalidStatus := "invalid status: must be one of active, won, lost, cancelled"

  /** The statuses `UpdateStatus` accepts. */
  const DealStatuses: seq<string> := ["active", "won", "lost", "cancelled"]

  /** The `currency` column's default, which an insert with an empty
      currency receives. */
  const DefaultCurrency := "IDR"

  /** `GetDeals`: one page of deals and the count of all matches. */
  function GetDeals(db: Db, tenant: nat, f: DealFilter): (r: Result<(seq<Deal>, nat)>)
    ensures r.Ok? <==> FindAllDeals(db.deals, tenant, f).Ok?
    ensures r.Ok? ==> |r.value.0| <= r.value.1 && r.value.1 == |DealRepo.Selected(db.deals, tenant, f)|
  {
    var rows :- FindAllDeals(db.deals, tenant, f);
    Ok((rows, CountDeals(db.deals, tenant, f)))
  }

  /** `GetDealByID`. */
  function GetDealByID(db: Db, tenant: nat, id: nat): (r: Result<Deal>)
    ensures r.Ok? <==> FindDeal(db.deals, tenant, id).Some?
    ensures r.Ok? ==> r.value in db.deals && r.value.id == id && r.value.tenantId == tenant
    ensures r.Err? ==> r.msg == DealNotFound
  {
    match FindDeal(db.deals, tenant, id)
    case None => Err(DealNotFound)
    case Some(d) => Ok(d)
  }

  /** `CreateDeal`: the title and the stage are checked first, the contact
      only when one is given; a zero probability is taken from the stage
      and an empty status becomes "active".  The deal is inserted under a
      fresh key at instant `now`, and an empty currency takes the column's
      default, "IDR". */
  function CreateDeal(db: Db, deal: Deal, now: int): (r: Result<(Db, Deal)>)
    ensures deal.title == "" ==> r == Err(TitleRequired)
    ensures deal.title != "" && deal.stageId == 0 ==> r == Err(StageRequired)
    ensures deal.title != "" && deal.stageId != 0 && FindStage(db.stages, deal.tenantId, deal.stageId).None? ==>
              r == Err(InvalidStage)
    ensures r.Ok? <==> (&& deal.title != "" && deal.stageId != 0
                        && FindStage(db.stages, deal.tenantId, deal.stageId).Some?
                        && (deal.contactId == 0 || FindContact(db.contacts, deal.tenantId, deal.contactId).Some?))
    ensures r.Err? && r.msg == InvalidContact ==>
              deal.contactId > 0 && FindContact(db.contacts, deal.tenantId, deal.contactId).None?
    ensures r.Ok? ==> var (db', d) := r.value;
              var stage := FindStage(db.stages, deal.tenantId, deal.stageId).value;
              && db'.deals == db.deals + [d]
              && db' == db.(deals := db'.deals, nextId := db.nextId + 1)
              && d.id == db.nextId && d.createdAt == now
              && (deal.probability == 0 ==> d.probability == stage.probability)
              && (deal.probability != 0 ==> d.probability == deal.probability)
              && (deal.status == "" ==> d.status == "active")
              && (deal.status != "" ==> d.status == deal.status)
              && (deal.currency == "" ==> d.currency == DefaultCurrency)
              && (deal.currency != "" ==> d.currency == deal.currency)
              && d == deal.(id := d.id, probability := d.probability, status := d.status,
                            currency := d.currency, createdAt := now)
  {
    if deal.title == "" then Err(TitleRequired)
    else if deal.stageId == 0 then Err(StageRequired)
    else match FindStage(db.stages, deal.tenantId, deal.stageId)
      case None => Err(InvalidStage)
      case Some(stage) =>
        if deal.contactId > 0 && FindContact(db.contacts, deal.tenantId, deal.contactId).None? then Err(InvalidContact)
        else
          var d := deal.(
            id := db.nextId,
            probability := if deal.probability == 0 then stage.probability else deal.probability,
            status := if deal.status == "" then "active" else deal.status,
            currency := if deal.currency == "" then DefaultCurrency else deal.currency,
            createdAt := now);
          Ok((db.(deals := db.deals + [d], nextId := db.nextId + 1), d))
  }

  /** The validation `UpdateDeal` performs before writing, and the patch it
      writes.  A new stage resets the probability to the stage's when the
      given one is zero or still the old one; a contact is checked only
      when it changes to a non-zero key. */
  function PrepareUpdate(db: Db, tenant: nat, deal: Deal): (r: Result<(Deal, Deal)>)
    ensures FindDeal(db.deals, tenant, deal.id).None? ==> r == Err(DealNotFound)
    ensures r.Ok? ==> (&& FindDeal(db.deals, tenant, deal.id) == Some(r.value.0)
                       && r.value.1 == deal.(probability := r.value.1.probability))
    ensures r.Ok? && StageChanges(r.value.0, deal) ==>
              (&& FindStage(db.stages, tenant, deal.stageId).Some?
               && (deal.probability == 0 || deal.probability == r.value.0.probability ==>
                     r.value.1.probability == FindStage(db.stages, tenant, deal.stageId).value.probability))
    ensures r.Ok? && !StageChanges(r.value.0, deal) ==> r.value.1 == deal
    ensures r.Ok? && deal.contactId > 0 && deal.contactId != r.value.0.contactId ==>
              FindContact(db.contacts, tenant, deal.contactId).Some?
  {
    match FindDeal(db.deals, tenant, deal.id)
    case None => Err(DealNotFound)
    case Some(existing) =>
      var patch :-
        if StageChanges(existing, deal) then
          match FindStage(db.stages, tenant, deal.stageId)
          case None => Err(InvalidStage)
          case Some(stage) =>
            Ok(if deal.probability == 0 || deal.probability == existing.probability
               then deal.(probability := stage.probability) else deal)
        else Ok(deal);
      if deal.contactId > 0 && deal.contactId != existing.contactId
         && FindContact(db.contacts, tenant, deal.contactId).None?
      then Err(InvalidContact)
      else Ok((existing, patch))
  }

  predicate StageChanges(existing: Deal, deal: Deal)
  {
    deal.stageId != 0 && deal.stageId != existing.stageId
  }

  /** `UpdateDeal` as the source writes it: the prepared patch goes through
      GORM struct `Updates`, so a zero probability (a stage whose
      probability is 0) is not written. */
  function UpdateDealAsWritten(db: Db, tenant: nat, deal: Deal): (r: Result<Db>)
    ensures r.Ok? <==> PrepareUpdate(db, tenant, deal).Ok?
    ensures r.Ok? ==> r.value == db.(deals := UpdateDealRows(db.deals, PrepareUpdate(db, tenant, deal).value.1))
  {
    var (existing, patch) :- PrepareUpdate(db, tenant, deal);
    Ok(db.(deals := UpdateDealRows(db.deals, patch)))
  }

  /** Moving a deal to a stage with probability 0 through `UpdateDeal`
      keeps the old probability, although the stage's is meant to be
      taken. */
  lemma UpdateToZeroStageKeepsOldProbability()
    ensures var stages := [Stage(1, 7, "Negotiation", 4, 75, "", true, false, false),
                           Stage(2, 7, "Closed Lost", 6, 0, "", true, false, true)];
            var before := Deal(3, 7, 9, 0, "Deal", "", 100, "IDR", 1, 75, None, "active", "", "", 0);
            var db := Db([], [], [], stages, [], [before], [], 4);
            var req := before.(tenantId := 0, createdBy := 0, stageId := 2, probability := 0);
            && UpdateDealAsWritten(db, 7, req).Ok?
            && UpdateDealAsWritten(db, 7, req).value.deals[0].stageId == 2
            && UpdateDealAsWritten(db, 7, req).value.deals[0].probability == 75
            && stages[1].probability == 0
  {
    var stages := [Stage(1, 7, "Negotiation", 4, 75, "", true, false, false),
                   Stage(2, 7, "Closed Lost", 6, 0, "", true, false, true)];
    var before := Deal(3, 7, 9, 0, "Deal", "", 100, "IDR", 1, 75, None, "active", "", "", 0);
    var db := Db([], [], [], stages, [], [before], [], 4);
    var req := before.(tenantId := 0, createdBy := 0, stageId := 2, probability := 0);
    assert FindDeal(db.deals, 7, 3) == Some(before);
    assert FindStage(stages, 7, 2) == Some(stages[1]);
    var r := PrepareUpdate(db, 7, req);
    assert r.Ok? && r.value.1 == req;
  }

  /** `UpdateDeal` with the evident intent: after a stage change the
      computed probability is stored even when it is zero. */
  function UpdateDeal(db: Db, tenant: nat, deal: Deal): (r: Result<Db>)
    ensures FindDeal(db.deals, tenant, deal.id).None? ==> r == Err(DealNotFound)
    ensures r.Ok? <==> PrepareUpdate(db, tenant, deal).Ok?
    ensures r.Ok? ==> r.value == db.(deals := r.value.deals) && |r.value.deals| == |db.deals|
    ensures r.Ok? ==> forall k :: 0 <= k < |db.deals| ==>
              (&& r.value.deals[k].id == db.deals[k].id
               && r.value.deals[k].tenantId == db.deals[k].tenantId
               && r.value.deals[k].createdBy == db.deals[k].createdBy)
    ensures r.Ok? ==> forall k :: 0 <= k < |db.deals| && db.deals[k].id != deal.id ==> r.value.deals[k] == db.deals[k]
    ensures r.Ok? && StageChanges(PrepareUpdate(db, tenant, deal).value.0, deal)
              && (deal.probability == 0 || deal.probability == PrepareUpdate(db, tenant, deal).value.0.probability) ==>
              forall k :: 0 <= k < |db.deals| && db.deals[k].id == deal.id && db.deals[k].tenantId == tenant ==>
                r.value.deals[k].stageId == deal.stageId
                && r.value.deals[k].probability == FindStage(db.stages, tenant, deal.stageId).value.probability
  {
    var (existing, patch) :- PrepareUpdate(db, tenant, deal);
    var rows := UpdateDealRows(db.deals, patch);
    if StageChanges(existing, deal) then
      Ok(db.(deals := MapRow(rows, tenant, deal.id, (d: Deal) => d.(probability := patch.probability))))
    else Ok(db.(deals := rows))
  }

  /** In a well-formed database the key names one row, so `UpdateDeal`
      rewrites the tenant's deal and nothing else. */
  lemma UpdateDealTouchesOneRow(db: Db, tenant: nat, deal: Deal)
    requires Valid(db) && UpdateDeal(db, tenant, deal).Ok?
    ensures forall k :: 0 <= k < |db.deals| && db.deals[k].id == deal.id ==> db.deals[k].tenantId == tenant
  {
    var existing := FindDeal(db.deals, tenant, deal.id).value;
    OnlyRowWithKey(db.deals, DealKey, db.nextId, existing);
  }

  /** `DeleteDeal`. */
  function DeleteDeal(db: Db, tenant: nat, id: nat): (r: Result<Db>)
    ensures r.Ok? <==> FindDeal(db.deals, tenant, id).Some?
    ensures r.Err? ==> r.msg == DealNotFound
    ensures r.Ok? ==> r.value == db.(deals := r.value.deals)
    ensures r.Ok? ==> forall d :: d in r.value.deals <==> d in db.deals && d.id != id
  {
    if FindDeal(db.deals, tenant, id).None? then Err(DealNotFound)
    else Ok(db.(deals := DeleteDealRow(db.deals, id)))
  }

  /** The status a deal takes on entering a stage: won for a closed-won
      stage, else lost for a closed-lost one, else unchanged. */
  function StatusOnEntering(stage: Stage, current: string): (s: string)
    ensures stage.isClosedWon ==> s == "won"
    ensures !stage.isClosedWon && stage.isClosedLost ==> s == "lost"
    ensures !stage.isClosedWon && !stage.isClosedLost ==> s == current
  {
    if stage.isClosedWon then "won" else if stage.isClosedLost then "lost" else current
  }

  /** `MoveToStage`: the deal and the stage must exist in the tenant; the
      deal takes the stage's key and probability and the status the stage
      implies, all in one update, and the updated deal is returned. */
  function MoveToStage(db: Db, tenant: nat, dealId: nat, stageId: nat): (r: Result<(Db, Deal)>)
    ensures FindDeal(db.deals, tenant, dealId).None? ==> r == Err(DealNotFound)
    ensures FindDeal(db.deals, tenant, dealId).Some? && FindStage(db.stages, tenant, stageId).None? ==>
              r == Err(InvalidStage)
    ensures r.Ok? <==> FindDeal(db.deals, tenant, dealId).Some? && FindStage(db.stages, tenant, stageId).Some?
    ensures r.Ok? ==> var (db', d) := r.value;
              var before := FindDeal(db.deals, tenant, dealId).value;
              var stage := FindStage(db.stages, tenant, stageId).value;
              && d.stageId == stageId && d.probability == stage.probability
              && d.status == StatusOnEntering(stage, before.status)
              && d == before.(stageId := d.stageId, probability := d.probability, status := d.status)
              && db' == db.(deals := db'.deals) && |db'.deals| == |db.deals|
              && d in db'.deals
              && forall k :: 0 <= k < |db.deals| && !(db.deals[k].id == dealId && db.deals[k].tenantId == tenant) ==>
                   db'.deals[k] == db.deals[k]
  {
    match FindDeal(db.deals, tenant, dealId)
    case None => Err(DealNotFound)
    case Some(before) =>
      match FindStage(db.stages, tenant, stageId)
      case None => Err(InvalidStage)
      case Some(stage) =>
        var move := (d: Deal) => d.(stageId := stageId, probability := stage.probability,
                                    status := StatusOnEntering(stage, d.status));
        var rows := MapRow(db.deals, tenant, dealId, move);
        var k :| 0 <= k < |db.deals| && db.deals[k] == before;
        assert rows[k] == move(before);
        Ok((db.(deals := rows), move(before)))
  }

  /** `UpdateStatus`: the status is checked against the enumeration before
      the deal is looked up; then only that deal's status changes. */
  function UpdateStatus(db: Db, tenant: nat, id: nat, status: string): (r: Result<Db>)
    ensures status !in DealStatuses ==> r == Err(InvalidStatus)
    ensures status in DealStatuses && FindDeal(db.deals, tenant, id).None? ==> r == Err(DealNotFound)
    ensures r.Ok? <==> status in DealStatuses && FindDeal(db.deals, tenant, id).Some?
    ensures r.Ok? ==> r.value == db.(deals := SetStatusRow(db.deals, tenant, id, status))
  {
    if status !in DealStatuses then Err(InvalidStatus)
    else if FindDeal(db.deals, tenant, id).None? then Err(DealNotFound)
    else Ok(db.(deals := SetStatusRow(db.deals, tenant, id, status)))
  }

  /** An unknown status is refused even for a deal that does not exist:
      the enumeration is checked first. */
  lemma StatusCheckedFirst(db: Db, tenant: nat, id: nat)
    requires FindDeal(db.deals, tenant, id).None?
    ensures UpdateStatus(db, tenant, id, "open") == Err(InvalidStatus)
    ensures UpdateStatus(db, tenant, id, "won") == Err(DealNotFound)
  {
  }

  /** `GetPipelineValue`. */
  function GetPipelineValue(db: Db, tenant: nat): (m: map<nat, int>)
    ensures forall s :: s in m ==> m[s] == StageTotal(db.deals, tenant, s)
    ensures forall s :: s in m <==> exists k :: 0 <= k < |db.deals| && ActiveIn(db.deals[k], tenant, s)
  {
    TotalValueByStage(db.deals, tenant)
  }

  /** Every successful deal mutation keeps the database well formed. */
  lemma CreateDealKeepsValid(db: Db, deal: Deal, now: int)
    requires Valid(db) && CreateDeal(db, deal, now).Ok?
    ensures Valid(CreateDeal(db, deal, now).value.0)
  {
    var (db', d) := CreateDeal(db, deal, now).value;
    AppendBatchKeepsKeys(db.deals, [d], DealKey, db.nextId, db'.nextId);
    ValidAfter(db, db');
  }

  lemma UpdateDealKeepsValid(db: Db, tenant: nat, deal: Deal)
    requires Valid(db) && UpdateDeal(db, tenant, deal).Ok?
    ensures Valid(UpdateDeal(db, tenant, deal).value)
  {
    var db' := UpdateDeal(db, tenant, deal).value;
    SameKeysKeepsKeys(db.deals, db'.deals, DealKey, db.nextId);
    ValidAfter(db, db');
  }

  lemma UpdateDealAsWrittenKeepsValid(db: Db, tenant: nat, deal: Deal)
    requires Valid(db) && UpdateDealAsWritten(db, tenant, deal).Ok?
    ensures Valid(UpdateDealAsWritten(db, tenant, deal).value)
  {
    var db' := UpdateDealAsWritten(db, tenant, deal).value;
    SameKeysKeepsKeys(db.deals, db'.deals, DealKey, db.nextId);
    ValidAfter(db, db');
  }

  lemma DeleteDealKeepsValid(db: Db, tenant: nat, id: nat)
    requires Valid(db) && DeleteDeal(db, tenant, id).Ok?
    ensures Valid(DeleteDeal(db, tenant, id).value)
  {
    var db' := DeleteDeal(db, tenant, id).value;
    FilterKeepsKeys(db.deals, DealKey, db.nextId, (d: Deal) => d.id != id);
    ValidAfter(db, db');
  }

  lemma MoveToStageKeepsValid(db: Db, tenant: nat, id: nat, stageId: nat)
    requires Valid(db) && MoveToStage(db, tenant, id, stageId).Ok?
    ensures Valid(MoveToStage(db, tenant, id, stageId).value.0)
  {
    var db' := MoveToStage(db, tenant, id, stageId).value.0;
    SameKeysKeepsKeys(db.deals, db'.deals, DealKey, db.nextId);
    ValidAfter(db, db');
  }

  lemma UpdateStatusKeepsValid(db: Db, tenant: nat, id: nat, status: string)
    requires Valid(db) && UpdateStatus(db, tenant, id, status).Ok?
    ensures Valid(UpdateStatus(db, tenant, id, status).value)
  {
    var db' := UpdateStatus(db, tenant, id, status).value;
    SameKeysKeepsKeys(db.deals, db'.deals, DealKey, db.nextId);
    ValidAfter(db, db');
  }
}
