/** The contact endpoints (`handler/contact_handler.go`): request parsing,
    status codes, the audit trail and the listing's page count. */
module ContactHandler {
  import opened Wrappers
  import opened Seqs
  import opened Text
  import opened Scopes
  import opened Entities
  import opened Strconv
  import opened Http
  import opened ContactRepo
  import ContactService

  const InvalidContactId := "Invalid contact ID"
  const SearchRequired := "Search query is required"
  const ContactCreated := "Contact created successfully"
  const ContactUpdated := "Contact updated successfully"
  const ContactDeleted := "Contact deleted successfully"

  /** Without paging parameters the contact listings serve page 1 with
      twenty contacts. */
  lemma DefaultPaging(q: QueryString)
    requires "page" !in q && "page_size" !in q
    ensures PageParams(q, "20") == (1, 20)
  {
    DefaultsParse();
  }

  /** The listing filter: the five text filters as given, and the tags
      split on commas only when the `tags` value is non-empty. */
  function ParseContactFilter(q: QueryString): (f: ContactFilter)
    ensures f.search == Query(q, "search") && f.status == Query(q, "status") && f.source == Query(q, "source")
    ensures f.city == Query(q, "city") && f.province == Query(q, "province")
    ensures Query(q, "tags") == "" <==> f.tags == []
    ensures forall k :: 0 <= k < |f.tags| ==> ',' !in f.tags[k]
  {
    var tags := Query(q, "tags");
    ContactFilter(Query(q, "search"), Query(q, "status"), Query(q, "source"),
                  if tags != "" then Split(tags, ',') else [],
                  Query(q, "city"), Query(q, "province"))
  }

  /** The tag list re-joined with commas is the `tags` query value. */
  lemma TagsRoundTrip(q: QueryString)
    ensures Join(ParseContactFilter(q).tags, ',') == Query(q, "tags")
  {
    if Query(q, "tags") != "" {
      JoinSplit(Query(q, "tags"), ',');
    }
  }

  // ---------------------------------------------------------------------
  // total_pages
  // ---------------------------------------------------------------------

  /** `total_pages` as the handler computes it: a 64-bit ceiling division
      by the page size exactly as requested, not the size the repository
      used.  `None` is the division-by-zero panic of a zero page size,
      which gin's recovery turns into a 500. */
  function TotalPagesAsWritten(total: int, pageSize: int): (r: Option<int>)
    requires IsInt64(total) && IsInt64(pageSize)
    ensures r.None? <==> pageSize == 0
    ensures r.Some? ==> IsInt64(r.value)
  {
    if pageSize == 0 then None else Some(WrapInt64(GoDiv(WrapInt64(total + pageSize - 1), pageSize)))
  }

  /** The number of pages the listing really has: the count divided by the
      clamped page size, rounded up. */
  function TotalPages(total: nat, pageSize: int): (r: nat)
    ensures r * ClampPageSize(pageSize) >= total
    ensures r > 0 ==> (r - 1) * ClampPageSize(pageSize) < total
  {
    CeilDiv(total, ClampPageSize(pageSize))
  }

  /** A page size above the cap makes the handler under-count: 250
      contacts at the requested size 500 are served 100 to a page, on
      three pages, while the response reports one. */
  lemma TotalPagesUndercounts()
    ensures TotalPagesAsWritten(250, 500) == Some(1)
    ensures TotalPages(250, 500) == 3
  {
    assert GoDiv(749, 500) == 1;
  }

  /** A zero page size panics, although the repository serves the request
      with its default size of ten. */
  lemma ZeroPageSizePanics(total: nat)
    requires IsInt64(total)
    ensures TotalPagesAsWritten(total, 0).None?
    ensures TotalPages(total, 0) == CeilDiv(total, DefaultPageSize)
  {
  }

  /** For sizes the repository accepts unchanged, the handler's formula is
      the right one. */
  lemma TotalPagesAgreeInRange(total: nat, pageSize: int)
    requires IsInt64(total) && 1 <= pageSize <= MaxPageSize && total <= MaxInt64 - MaxPageSize
    ensures TotalPagesAsWritten(total, pageSize) == Some(TotalPages(total, pageSize))
  {
  }

  /** Above the cap the handler divides by the requested size while the
      repository serves pages of `MaxPageSize`, so the reported count
      never exceeds the real one. */
  lemma OversizedPagesUndercount(total: nat, pageSize: int)
    requires pageSize > MaxPageSize && IsInt64(pageSize) && total <= MaxInt64 - pageSize
    ensures TotalPagesAsWritten(total, pageSize).Some?
    ensures TotalPagesAsWritten(total, pageSize).value <= TotalPages(total, pageSize)
  {
    var n := (total + pageSize - 1) / pageSize;
    assert WrapInt64(total + pageSize - 1) == total + pageSize - 1;
    assert GoDiv(total + pageSize - 1, pageSize) == n;
    assert ClampPageSize(pageSize) == MaxPageSize;
    CeilDivAtMost(total, pageSize, TotalPages(total, pageSize));
  }

  /** Rounding up by a divisor no smaller than the cap gives no more than
      any page count that covers the rows at the cap. */
  lemma CeilDivAtMost(total: nat, size: int, m: nat)
    requires size >= MaxPageSize && m * MaxPageSize >= total
    ensures (total + size - 1) / size <= m
  {
    MulMonotone(MaxPageSize, size, m);
    assert (m + 1) * size == m * size + size;
    DivBelow(total + size - 1, size, m + 1);
  }

  /** Every page after the last reported one is empty. */
  lemma PagesBeyondTotalAreEmpty(contacts: seq<Contact>, tenant: nat, f: ContactFilter, page: int, pageSize: int)
    requires page > TotalPages(|Selected(contacts, tenant, f)|, pageSize)
    ensures FindAllContacts(contacts, tenant, f, page, pageSize).0 == []
  {
    var total := |Selected(contacts, tenant, f)|;
    var n := TotalPages(total, pageSize);
    var p := Paginate(page, pageSize);
    MulMonotone(n, page - 1, ClampPageSize(pageSize));
    assert p.offset >= total;
  }

  /** The last reported page holds at least one contact. */
  lemma LastPageIsNotEmpty(contacts: seq<Contact>, tenant: nat, f: ContactFilter, pageSize: int)
    requires TotalPages(|Selected(contacts, tenant, f)|, pageSize) > 0
    ensures |FindAllContacts(contacts, tenant, f, TotalPages(|Selected(contacts, tenant, f)|, pageSize), pageSize).0| > 0
  {
    var i := LastPageStart(|Selected(contacts, tenant, f)|, pageSize);
    PageNotEmpty(contacts, tenant, f, TotalPages(|Selected(contacts, tenant, f)|, pageSize), pageSize);
  }

  /** The first row of the last reported page: a row that exists, at the
      head of page `TotalPages`. */
  lemma LastPageStart(total: nat, pageSize: int) returns (i: nat)
    requires TotalPages(total, pageSize) > 0
    ensures i < total
    ensures i / ClampPageSize(pageSize) + 1 == TotalPages(total, pageSize)
    ensures i % ClampPageSize(pageSize) == 0
    ensures i == Paginate(TotalPages(total, pageSize), pageSize).offset
  {
    var size := ClampPageSize(pageSize);
    var n := TotalPages(total, pageSize);
    MulDivCancel(n - 1, size);
    i := (n - 1) * size;
  }

  // ---------------------------------------------------------------------
  // Endpoints
  // ---------------------------------------------------------------------

  /** The body of a listing answer. */
  datatype ContactPage = ContactPage(contacts: seq<Contact>, total: nat, page: int, pageSize: int, totalPages: int)

  /** `GET /contacts`: `page` and `page_size` are echoed as parsed, and
      `total_pages` is the handler's 64-bit formula over the count read
      into an `int64`.  A zero `page_size` makes that formula divide by
      zero, and gin's recovery answers 500 with an empty body. */
  function GetContacts(db: Db, tenant: nat, q: QueryString): (r: Reply<ContactPage>)
    ensures r.Error? <==> PageParams(q, "20").1 == 0
    ensures r.Error? ==> r.status == StatusInternalServerError
    ensures r.Reply? ==>
              && r.status == StatusOK
              && r.data.total == |Selected(db.contacts, tenant, ParseContactFilter(q))|
              && (r.data.page, r.data.pageSize) == PageParams(q, "20")
              && r.data.contacts == FindAllContacts(db.contacts, tenant, ParseContactFilter(q), r.data.page, r.data.pageSize).0
              && (forall c :: c in r.data.contacts ==> c in db.contacts && c.tenantId == tenant)
    ensures r.Reply? && 1 <= r.data.pageSize <= MaxPageSize && r.data.total <= MaxInt64 - MaxPageSize ==>
              r.data.totalPages == TotalPages(r.data.total, r.data.pageSize)
              && r.data.totalPages * r.data.pageSize >= r.data.total
    ensures r.Reply? && r.data.pageSize > MaxPageSize && r.data.total <= MaxInt64 - r.data.pageSize ==>
              r.data.totalPages <= TotalPages(r.data.total, r.data.pageSize)
  {
    var paging := PageParams(q, "20");
    var listed := ContactService.GetContacts(db, tenant, ParseContactFilter(q), paging.0, paging.1);
    ReportedPageCount(listed.1, paging.1);
    match TotalPagesAsWritten(WrapInt64(listed.1), paging.1)
    case None => Error(StatusInternalServerError, "")
    case Some(n) => Reply(StatusOK, "", ContactPage(listed.0, listed.1, paging.0, paging.1, n))
  }

  /** What the response reports as the page count, from the 64-bit total:
      the exact count within the cap, never more than it above the cap. */
  lemma ReportedPageCount(total: nat, pageSize: int)
    requires IsInt64(pageSize)
    ensures TotalPagesAsWritten(WrapInt64(total), pageSize).None? <==> pageSize == 0
    ensures 1 <= pageSize <= MaxPageSize && total <= MaxInt64 - MaxPageSize ==>
              TotalPagesAsWritten(WrapInt64(total), pageSize) == Some(TotalPages(total, pageSize))
    ensures pageSize > MaxPageSize && total <= MaxInt64 - pageSize ==>
              TotalPagesAsWritten(WrapInt64(total), pageSize).value <= TotalPages(total, pageSize)
  {
    if 1 <= pageSize <= MaxPageSize && total <= MaxInt64 - MaxPageSize {
      TotalPagesAgreeInRange(total, pageSize);
    }
    if pageSize > MaxPageSize && total <= MaxInt64 - pageSize {
      OversizedPagesUndercount(total, pageSize);
    }
  }

  /** The body of a search answer. */
  datatype SearchPage = SearchPage(contacts: seq<Contact>, total: nat, page: int, pageSize: int, query: string)

  /** `GET /contacts/search`: an empty or missing `q` is refused. */
  function SearchContacts(db: Db, tenant: nat, q: QueryString): (r: Reply<SearchPage>)
    ensures r.Error? <==> Query(q, "q") == ""
    ensures r.Error? ==> r == Error(StatusBadRequest, SearchRequired)
    ensures r.Reply? ==> r.status == StatusOK && r.data.query == q["q"] && (r.data.page, r.data.pageSize) == PageParams(q, "20")
    ensures r.Reply? ==> forall c :: c in r.data.contacts ==> c.tenantId == tenant && SearchHit(c, q["q"])
  {
    var term := Query(q, "q");
    if term == "" then Error(StatusBadRequest, SearchRequired)
    else
      var (page, pageSize) := PageParams(q, "20");
      var (rows, total) := ContactService.SearchContacts(db, tenant, term, page, pageSize);
      Reply(StatusOK, "", SearchPage(rows, total, page, pageSize, term))
  }

  /** `GET /contacts/:id`: a malformed id is 400, a missing contact 404. */
  function GetContact(db: Db, tenant: nat, idParam: string): (r: Reply<Contact>)
    ensures ParseUint32(idParam).None? ==> r == Error(StatusBadRequest, InvalidContactId)
    ensures r.Reply? <==> ParseUint32(idParam).Some? && FindContact(db.contacts, tenant, ParseUint32(idParam).value).Some?
    ensures r.Reply? ==> r.status == StatusOK && r.data in db.contacts && r.data.tenantId == tenant
                         && r.data.id == ParseUint32(idParam).value
    ensures ParseUint32(idParam).Some? && r.Error? ==> r == Error(StatusNotFound, ContactService.ContactNotFound)
  {
    match ParseUint32(idParam)
    case None => Error(StatusBadRequest, InvalidContactId)
    case Some(id) =>
      match ContactService.GetContact(db, tenant, id)
      case Err(e) => Error(StatusNotFound, e)
      case Ok(c) => Reply(StatusOK, "", c)
  }

  /** `POST /contacts`: the tenant and the creator come from the request
      context, whatever the body says; a success is audited. */
  function CreateContact(db: Db, tenant: nat, user: nat, body: Result<Contact>): (r: (Db, Reply<Contact>))
    ensures body.Err? ==> r == (db, Error(StatusBadRequest, body.msg))
    ensures r.1.Error? ==> r.0 == db && r.1.status == StatusBadRequest
    ensures r.1.Reply? <==> body.Ok? && ContactService.CreateContact(db, body.value.(tenantId := tenant, createdBy := user)).Ok?
    ensures r.1.Reply? ==> var c := r.1.data;
              && r.1.status == StatusCreated && r.1.message == ContactCreated
              && c.tenantId == tenant && c.createdBy == user && c.id == db.nextId
              && r.0.contacts == db.contacts + [c]
              && r.0.auditLogs == db.auditLogs + [AuditLog(tenant, user, "create", "contact", c.id)]
  {
    match body
    case Err(e) => (db, Error(StatusBadRequest, e))
    case Ok(req) =>
      match ContactService.CreateContact(db, req.(tenantId := tenant, createdBy := user))
      case Err(e) => (db, Error(StatusBadRequest, e))
      case Ok((db', c)) => (Audit(db', tenant, user, "create", "contact", c.id), Reply(StatusCreated, ContactCreated, c))
  }

  /** `PATCH /contacts/:id`: the id comes from the path, overriding the
      body's; the service's errors are all answered 400. */
  function UpdateContact(db: Db, tenant: nat, user: nat, idParam: string, body: Result<Contact>)
    : (r: (Db, Reply<Contact>))
    ensures ParseUint32(idParam).None? ==> r == (db, Error(StatusBadRequest, InvalidContactId))
    ensures r.1.Error? ==> r.0 == db && r.1.status == StatusBadRequest
    ensures r.1.Reply? ==> && ParseUint32(idParam).Some? && body.Ok?
                           && r.1.data == body.value.(id := ParseUint32(idParam).value, tenantId := tenant)
                           && ContactService.UpdateContact(db, tenant, r.1.data).Ok?
                           && r.0 == Audit(ContactService.UpdateContact(db, tenant, r.1.data).value,
                                           tenant, user, "update", "contact", r.1.data.id)
  {
    match ParseUint32(idParam)
    case None => (db, Error(StatusBadRequest, InvalidContactId))
    case Some(id) =>
      match body
      case Err(e) => (db, Error(StatusBadRequest, e))
      case Ok(req) =>
        var c := req.(id := id);
        match ContactService.UpdateContact(db, tenant, c)
        case Err(e) => (db, Error(StatusBadRequest, e))
        case Ok(db') =>
          var saved := c.(tenantId := tenant);
          (Audit(db', tenant, user, "update", "contact", id), Reply(StatusOK, ContactUpdated, saved))
  }

  /** Whatever id the body carries, the path decides which contact is
      updated. */
  lemma PathIdWins(db: Db, tenant: nat, user: nat, idParam: string, c: Contact, otherId: nat)
    ensures UpdateContact(db, tenant, user, idParam, Ok(c)) == UpdateContact(db, tenant, user, idParam, Ok(c.(id := otherId)))
  {
  }

  /** `DELETE /contacts/:id`: a malformed id is 400, a missing contact 404. */
  function DeleteContact(db: Db, tenant: nat, user: nat, idParam: string): (r: (Db, Reply<()>))
    ensures ParseUint32(idParam).None? ==> r == (db, Error(StatusBadRequest, InvalidContactId))
    ensures ParseUint32(idParam).Some? && r.1.Error? ==> r == (db, Error(StatusNotFound, ContactService.ContactNotFound))
    ensures r.1.Reply? <==> ParseUint32(idParam).Some? && FindContact(db.contacts, tenant, ParseUint32(idParam).value).Some?
    ensures r.1.Reply? ==> && r.1 == Reply(StatusOK, ContactDeleted, ())
                           && r.0 == Audit(ContactService.DeleteContact(db, tenant, ParseUint32(idParam).value).value,
                                           tenant, user, "delete", "contact", ParseUint32(idParam).value)
  {
    match ParseUint32(idParam)
    case None => (db, Error(StatusBadRequest, InvalidContactId))
    case Some(id) =>
      match ContactService.DeleteContact(db, tenant, id)
      case Err(e) => (db, Error(StatusNotFound, e))
      case Ok(db') => (Audit(db', tenant, user, "delete", "contact", id), Reply(StatusOK, ContactDeleted, ()))
  }

  /** A contact created through the API is served back by its id, and a
      deleted one is gone. */
  lemma CreateThenGet(db: Db, tenant: nat, user: nat, body: Result<Contact>)
    requires Valid(db) && db.nextId <= MaxUint32
    requires CreateContact(db, tenant, user, body).1.Reply?
    ensures var (db', reply) := CreateContact(db, tenant, user, body);
            GetContact(db', tenant, NatToString(reply.data.id)) == Reply(StatusOK, "", reply.data)
  {
    var (db', reply) := CreateContact(db, tenant, user, body);
    ParseUint32NatToString(reply.data.id);
    ContactService.CreateThenGet(db, body.value.(tenantId := tenant, createdBy := user));
  }

  lemma DeleteThenGet(db: Db, tenant: nat, user: nat, idParam: string)
    requires DeleteContact(db, tenant, user, idParam).1.Reply?
    ensures GetContact(DeleteContact(db, tenant, user, idParam).0, tenant, idParam)
            == Error(StatusNotFound, ContactService.ContactNotFound)
  {
    ContactService.DeleteThenGet(db, tenant, ParseUint32(idParam).value);
  }
}
