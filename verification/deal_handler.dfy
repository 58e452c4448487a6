/** The deal endpoints (`handler/deal_handler.go`): the listing's query
    parsing, status codes and the audit trail. */
module DealHandler {
  import opened Wrappers
  import opened Seqs
  import opened Text
  import opened Scopes
  import opened Entities
  import opened Strconv
  import opened Http
  import opened DealRepo
  import DealService

  const InvalidDealId := "Invalid deal ID"
  const FetchFailed := "Failed to fetch deals"
  const DealCreated := "Deal created successfully"
  const DealUpdated := "Deal updated successfully"
  const DealDeleted := "Deal deleted successfully"
  const DealMoved := "Deal moved successfully"
  const DealStatusUpdated := "Deal status updated successfully"

  /** The default number of deals per listing. */
  const DefaultLimit := 20

  /** An optional id filter: set only when the value parses as a 32-bit
      unsigned number. */
  function IdFilter(q: QueryString, key: string): (r: Option<nat>)
    ensures r.Some? <==> ParseUint32(Query(q, key)).Some?
    ensures r.Some? ==> r.value == DigitsValue(Query(q, key))
  {
    var s := Query(q, key);
    if s != "" then ParseUint32(s) else None
  }

  /** An optional filter set from a non-empty value through `parse`, and
      left unset when `parse` refuses the value. */
  function Optional<T>(q: QueryString, key: string, parse: string -> Option<T>): (r: Option<T>)
    ensures Query(q, key) == "" ==> r.None?
    ensures Query(q, key) != "" ==> r == parse(Query(q, key))
  {
    var s := Query(q, key);
    if s != "" then parse(s) else None
  }

  /** A numeric paging value: `Atoi` of a non-empty value when it parses,
      else `absent` for an empty or missing value and 0 for a value that
      does not parse. */
  function PagingValue(q: QueryString, key: string, absent: int): (r: int)
    ensures Query(q, key) == "" ==> r == absent
    ensures Query(q, key) != "" && Atoi(Query(q, key)).1 ==> r == SignedValue(Query(q, key))
    ensures Query(q, key) != "" && !Atoi(Query(q, key)).1 ==> r == 0
  {
    var s := Query(q, key);
    if s == "" then absent
    else
      var (n, ok) := Atoi(s);
      if ok then n else 0
  }

  /** A date bound handed to the database as text: `parseDate` stands for
      PostgreSQL's reading of a date (`None` when it refuses the text). */
  function ReadDate(parseDate: string -> Option<int>, text: string): (b: DateBound)
    ensures b.Day? <==> parseDate(text).Some?
    ensures b.Day? ==> b.day == parseDate(text).value
    ensures b.Unreadable? ==> b.text == text
  {
    match parseDate(text)
    case Some(day) => Day(day)
    case None => Unreadable(text)
  }

  /** Whether a date bound of the query is text the database refuses. */
  predicate DateRefused(q: QueryString, parseDate: string -> Option<int>)
  {
    || (Query(q, "expected_close_start") != "" && parseDate(Query(q, "expected_close_start")).None?)
    || (Query(q, "expected_close_end") != "" && parseDate(Query(q, "expected_close_end")).None?)
  }

  /** The filter `GetDeals` builds from the query string.  `parseFloat`
      stands for `strconv.ParseFloat` on the value bounds (`None` on an
      error); the date bounds are passed through as text. */
  function ParseDealFilter(q: QueryString, parseFloat: string -> Option<int>, parseDate: string -> Option<int>)
    : (f: DealFilter)
    ensures f.stageId == IdFilter(q, "stage_id") && f.contactId == IdFilter(q, "contact_id")
    ensures f.status == Query(q, "status") && f.search == Query(q, "search")
    ensures f.minValue == Optional(q, "min_value", parseFloat) && f.maxValue == Optional(q, "max_value", parseFloat)
    ensures Query(q, "expected_close_start") == "" <==> f.closeStart.None?
    ensures Query(q, "expected_close_end") == "" <==> f.closeEnd.None?
    ensures f.closeStart.Some? ==> f.closeStart.value == ReadDate(parseDate, Query(q, "expected_close_start"))
    ensures f.closeEnd.Some? ==> f.closeEnd.value == ReadDate(parseDate, Query(q, "expected_close_end"))
    ensures DatesReadable(f) <==> !DateRefused(q, parseDate)
    ensures f.sortBy == DefaultQuery(q, "sort_by", "created_at") && f.sortOrder == DefaultQuery(q, "sort_order", "desc")
    ensures f.limit == PagingValue(q, "limit", DefaultLimit) && f.offset == PagingValue(q, "offset", 0)
  {
    DealFilter(
      IdFilter(q, "stage_id"), Query(q, "status"), IdFilter(q, "contact_id"),
      Optional(q, "min_value", parseFloat), Optional(q, "max_value", parseFloat),
      Optional(q, "expected_close_start", (s: string) => Some(ReadDate(parseDate, s))),
      Optional(q, "expected_close_end", (s: string) => Some(ReadDate(parseDate, s))),
      Query(q, "search"),
      DefaultQuery(q, "sort_by", "created_at"), DefaultQuery(q, "sort_order", "desc"),
      PagingValue(q, "limit", DefaultLimit), PagingValue(q, "offset", 0))
  }

  /** An empty query string asks for the twenty newest deals, unfiltered. */
  lemma EmptyQueryIsDefaultListing(parseFloat: string -> Option<int>, parseDate: string -> Option<int>)
    ensures ParseDealFilter(map[], parseFloat, parseDate)
            == NoFilter.(sortBy := "created_at", sortOrder := "desc", limit := DefaultLimit)
    ensures OrderOf(ParseDealFilter(map[], parseFloat, parseDate)) == OrderClause("created_at", true)
  {
  }

  /** An id filter that does not parse is dropped rather than refused, so
      the listing is the same as without it. */
  lemma BadIdFilterIgnored(q: QueryString, parseFloat: string -> Option<int>, parseDate: string -> Option<int>, v: string)
    requires ParseUint32(v).None?
    ensures ParseDealFilter(q["stage_id" := v], parseFloat, parseDate)
            == ParseDealFilter(q - {"stage_id"}, parseFloat, parseDate)
  {
  }

  /** A `limit` that does not parse turns the limit off: the listing then
      holds every match (from the first one, without an offset). */
  lemma BadLimitListsEverything(db: Db, tenant: nat, q: QueryString, parseFloat: string -> Option<int>,
                                parseDate: string -> Option<int>)
    requires Query(q, "limit") != "" && !Atoi(Query(q, "limit")).1
    requires Query(q, "offset") == ""
    ensures var f := ParseDealFilter(q, parseFloat, parseDate);
            f.limit == 0 && (GetDeals(db, tenant, q, parseFloat, parseDate).Reply? ==>
              multiset(GetDeals(db, tenant, q, parseFloat, parseDate).data.deals)
              == multiset(DealRepo.Selected(db.deals, tenant, f)))
  {
  }

  /** The body of a listing answer. */
  datatype DealPage = DealPage(deals: seq<Deal>, total: nat, limit: int, offset: int)

  /** `GET /deals`: a sort column or a date bound the database rejects is
      a 500; otherwise the page, the count of all matches, and the limit
      and offset the filter used. */
  function GetDeals(db: Db, tenant: nat, q: QueryString, parseFloat: string -> Option<int>, parseDate: string -> Option<int>)
    : (r: Reply<DealPage>)
    ensures var f := ParseDealFilter(q, parseFloat, parseDate);
            && (r.Error? <==> FindAllDeals(db.deals, tenant, f).Err?)
            && (r.Error? <==> OrderOf(f).column !in Columns || DateRefused(q, parseDate))
            && (r.Error? ==> r == Error(StatusInternalServerError, FetchFailed))
            && (r.Reply? ==> && r.status == StatusOK
                             && r.data.deals == FindAllDeals(db.deals, tenant, f).value
                             && r.data.total == |DealRepo.Selected(db.deals, tenant, f)|
                             && r.data.limit == f.limit && r.data.offset == f.offset)
  {
    var f := ParseDealFilter(q, parseFloat, parseDate);
    match DealService.GetDeals(db, tenant, f)
    case Err(_) => Error(StatusInternalServerError, FetchFailed)
    case Ok((rows, total)) => Reply(StatusOK, "", DealPage(rows, total, f.limit, f.offset))
  }

  /** `GET /deals/:id`. */
  function GetDeal(db: Db, tenant: nat, idParam: string): (r: Reply<Deal>)
    ensures ParseUint32(idParam).None? ==> r == Error(StatusBadRequest, InvalidDealId)
    ensures r.Reply? <==> ParseUint32(idParam).Some? && FindDeal(db.deals, tenant, ParseUint32(idParam).value).Some?
    ensures r.Reply? ==> r.status == StatusOK && r.data in db.deals && r.data.tenantId == tenant
                         && r.data.id == ParseUint32(idParam).value
    ensures ParseUint32(idParam).Some? && r.Error? ==> r == Error(StatusNotFound, DealService.DealNotFound)
  {
    match ParseUint32(idParam)
    case None => Error(StatusBadRequest, InvalidDealId)
    case Some(id) =>
      match DealService.GetDealByID(db, tenant, id)
      case Err(e) => Error(StatusNotFound, e)
      case Ok(d) => Reply(StatusOK, "", d)
  }

  /** `POST /deals`: the tenant and the creator come from the request
      context, whatever the body says; `now` is the insertion instant. */
  function CreateDeal(db: Db, tenant: nat, user: nat, now: int, body: Result<Deal>): (r: (Db, Reply<Deal>))
    ensures body.Err? ==> r == (db, Error(StatusBadRequest, body.msg))
    ensures r.1.Error? ==> r.0 == db && r.1.status == StatusBadRequest
    ensures r.1.Reply? <==> body.Ok? && DealService.CreateDeal(db, body.value.(tenantId := tenant, createdBy := user), now).Ok?
    ensures r.1.Reply? ==> var d := r.1.data;
              && r.1.status == StatusCreated && r.1.message == DealCreated
              && d.tenantId == tenant && d.createdBy == user && d.id == db.nextId
              && d.currency == (if body.value.currency == "" then DealService.DefaultCurrency else body.value.currency)
              && r.0.deals == db.deals + [d]
              && r.0.auditLogs == db.auditLogs + [AuditLog(tenant, user, "create", "deal", d.id)]
  {
    match body
    case Err(e) => (db, Error(StatusBadRequest, e))
    case Ok(req) =>
      match DealService.CreateDeal(db, req.(tenantId := tenant, createdBy := user), now)
      case Err(e) => (db, Error(StatusBadRequest, e))
      case Ok((db', d)) => (Audit(db', tenant, user, "create", "deal", d.id), Reply(StatusCreated, DealCreated, d))
  }

  /** `PATCH /deals/:id`: the id comes from the path, overriding the body's,
      and the service writes as the source does, so a zero probability is
      not stored.  The answer echoes the request as the service left it:
      the stage's probability filled in, and the tenant and creator zeroed
      by the repository. */
  function UpdateDeal(db: Db, tenant: nat, user: nat, idParam: string, body: Result<Deal>): (r: (Db, Reply<Deal>))
    ensures ParseUint32(idParam).None? ==> r == (db, Error(StatusBadRequest, InvalidDealId))
    ensures r.1.Error? ==> r.0 == db && r.1.status == StatusBadRequest
    ensures r.1.Reply? ==> && ParseUint32(idParam).Some? && body.Ok?
                           && var req := body.value.(id := ParseUint32(idParam).value);
                           && DealService.UpdateDealAsWritten(db, tenant, req).Ok?
                           && r.0 == Audit(DealService.UpdateDealAsWritten(db, tenant, req).value, tenant, user, "update", "deal", req.id)
                           && r.1.data.id == req.id && r.1.data.tenantId == 0 && r.1.data.createdBy == 0
    ensures r.1.Reply? ==> forall k :: 0 <= k < |db.deals| ==>
              r.0.deals[k] == if db.deals[k].id == r.1.data.id
                              then ApplyDealPatch(db.deals[k], r.1.data) else db.deals[k]
  {
    match ParseUint32(idParam)
    case None => (db, Error(StatusBadRequest, InvalidDealId))
    case Some(id) =>
      match body
      case Err(e) => (db, Error(StatusBadRequest, e))
      case Ok(b) =>
        var req := b.(id := id);
        match DealService.UpdateDealAsWritten(db, tenant, req)
        case Err(e) => (db, Error(StatusBadRequest, e))
        case Ok(db') =>
          var echoed := DealService.PrepareUpdate(db, tenant, req).value.1.(tenantId := 0, createdBy := 0);
          (Audit(db', tenant, user, "update", "deal", id), Reply(StatusOK, DealUpdated, echoed))
  }

  /** Whatever id the body carries, the path decides which deal is
      updated. */
  lemma PathIdWins(db: Db, tenant: nat, user: nat, idParam: string, d: Deal, otherId: nat)
    ensures UpdateDeal(db, tenant, user, idParam, Ok(d)) == UpdateDeal(db, tenant, user, idParam, Ok(d.(id := otherId)))
  {
  }

  /** `DELETE /deals/:id`: every service error is answered 400. */
  function DeleteDeal(db: Db, tenant: nat, user: nat, idParam: string): (r: (Db, Reply<()>))
    ensures ParseUint32(idParam).None? ==> r == (db, Error(StatusBadRequest, InvalidDealId))
    ensures r.1.Error? ==> r.0 == db && r.1.status == StatusBadRequest
    ensures r.1.Reply? <==> ParseUint32(idParam).Some? && FindDeal(db.deals, tenant, ParseUint32(idParam).value).Some?
    ensures r.1.Reply? ==> && r.1 == Reply(StatusOK, DealDeleted, ())
                           && r.0 == Audit(DealService.DeleteDeal(db, tenant, ParseUint32(idParam).value).value,
                                           tenant, user, "delete", "deal", ParseUint32(idParam).value)
  {
    match ParseUint32(idParam)
    case None => (db, Error(StatusBadRequest, InvalidDealId))
    case Some(id) =>
      match DealService.DeleteDeal(db, tenant, id)
      case Err(e) => (db, Error(StatusBadRequest, e))
      case Ok(db') => (Audit(db', tenant, user, "delete", "deal", id), Reply(StatusOK, DealDeleted, ()))
  }

  /** `PUT /deals/:id/move`: the body must carry a non-zero `stage_id`;
      the moved deal is returned. */
  function MoveToStage(db: Db, tenant: nat, user: nat, idParam: string, body: Result<nat>): (r: (Db, Reply<Deal>))
    ensures ParseUint32(idParam).None? ==> r == (db, Error(StatusBadRequest, InvalidDealId))
    ensures r.1.Error? ==> r.0 == db && r.1.status == StatusBadRequest
    ensures ParseUint32(idParam).Some? && body == Ok(0) ==> r == (db, Error(StatusBadRequest, RequiredFieldError("StageID")))
    ensures r.1.Reply? <==> && ParseUint32(idParam).Some? && body.Ok? && body.value != 0
                            && DealService.MoveToStage(db, tenant, ParseUint32(idParam).value, body.value).Ok?
    ensures r.1.Reply? ==> var (db', d) := DealService.MoveToStage(db, tenant, ParseUint32(idParam).value, body.value).value;
              && r.1 == Reply(StatusOK, DealMoved, d) && d.stageId == body.value
              && r.0 == Audit(db', tenant, user, "move_stage", "deal", ParseUint32(idParam).value)
  {
    match ParseUint32(idParam)
    case None => (db, Error(StatusBadRequest, InvalidDealId))
    case Some(id) =>
      match BindRequired(body, 0, "StageID")
      case Err(e) => (db, Error(StatusBadRequest, e))
      case Ok(stageId) =>
        match DealService.MoveToStage(db, tenant, id, stageId)
        case Err(e) => (db, Error(StatusBadRequest, e))
        case Ok((db', d)) => (Audit(db', tenant, user, "move_stage", "deal", id), Reply(StatusOK, DealMoved, d))
  }

  /** `PUT /deals/:id/status`: the body must carry a non-empty `status`. */
  function UpdateStatus(db: Db, tenant: nat, user: nat, idParam: string, body: Result<string>): (r: (Db, Reply<()>))
    ensures ParseUint32(idParam).None? ==> r == (db, Error(StatusBadRequest, InvalidDealId))
    ensures r.1.Error? ==> r.0 == db && r.1.status == StatusBadRequest
    ensures r.1.Reply? <==> && ParseUint32(idParam).Some? && body.Ok? && body.value != ""
                            && DealService.UpdateStatus(db, tenant, ParseUint32(idParam).value, body.value).Ok?
    ensures r.1.Reply? ==> && r.1 == Reply(StatusOK, DealStatusUpdated, ())
                           && r.0 == Audit(DealService.UpdateStatus(db, tenant, ParseUint32(idParam).value, body.value).value,
                                           tenant, user, "update_status", "deal", ParseUint32(idParam).value)
  {
    match ParseUint32(idParam)
    case None => (db, Error(StatusBadRequest, InvalidDealId))
    case Some(id) =>
      match BindRequired(body, "", "Status")
      case Err(e) => (db, Error(StatusBadRequest, e))
      case Ok(status) =>
        match DealService.UpdateStatus(db, tenant, id, status)
        case Err(e) => (db, Error(StatusBadRequest, e))
        case Ok(db') => (Audit(db', tenant, user, "update_status", "deal", id), Reply(StatusOK, DealStatusUpdated, ()))
  }

  /** `GET /deals/pipeline-value`. */
  function GetPipelineValue(db: Db, tenant: nat): (r: Reply<map<nat, int>>)
    ensures r.Reply? && r.status == StatusOK
    ensures forall s :: s in r.data ==> r.data[s] == StageTotal(db.deals, tenant, s)
  {
    Reply(StatusOK, "", DealService.GetPipelineValue(db, tenant))
  }
}
