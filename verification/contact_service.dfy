/** Contact business rules (`service/contact_service.go`). */
module ContactService {
  import opened Wrappers
  import opened Seqs
  import opened Entities
  import opened ContactRepo

  const ContactNotFound := "contact not found"
  const FirstNameRequired := "first name is required"
  const InvalidStatusOnCreate := "invalid status. must be: active, inactive, or blocked"
  const InvalidStatusOnUpdate := "invalid status"

  /** The statuses a contact may hold. */
  const ContactStatuses: seq<string> := ["active", "inactive", "blocked"]

  /** `CreateContact`: the first name is required, an empty status becomes
      "active", and the status must then be one of the three.  The row is
      inserted under a fresh key. */
  function CreateContact(db: Db, contact: Contact): (r: Result<(Db, Contact)>)
    ensures contact.firstName == "" ==> r == Err(FirstNameRequired)
    ensures contact.firstName != "" && contact.status != "" && contact.status !in ContactStatuses ==>
              r == Err(InvalidStatusOnCreate)
    ensures r.Ok? <==> contact.firstName != "" && (contact.status == "" || contact.status in ContactStatuses)
    ensures r.Ok? ==> var (db', c) := r.value;
              && db' == db.(contacts := db.contacts + [c], nextId := db.nextId + 1)
              && c.id == db.nextId
              && c.status in ContactStatuses
              && (contact.status == "" ==> c.status == "active")
              && c == contact.(id := c.id, status := c.status)
  {
    if contact.firstName == "" then Err(FirstNameRequired)
    else
      var status := if contact.status == "" then "active" else contact.status;
      if status !in ContactStatuses then Err(InvalidStatusOnCreate)
      else
        var c := contact.(id := db.nextId, status := status);
        Ok((db.(contacts := db.contacts + [c], nextId := db.nextId + 1), c))
  }

  /** `GetContact`. */
  function GetContact(db: Db, tenant: nat, id: nat): (r: Result<Contact>)
    ensures r.Ok? <==> exists k :: 0 <= k < |db.contacts| && db.contacts[k].id == id && db.contacts[k].tenantId == tenant
    ensures r.Ok? ==> r.value in db.contacts && r.value.id == id && r.value.tenantId == tenant
    ensures r.Err? ==> r.msg == ContactNotFound
  {
    match FindContact(db.contacts, tenant, id)
    case None => Err(ContactNotFound)
    case Some(c) => Ok(c)
  }

  /** `GetContacts`: the repository's filtered listing, unchanged. */
  function GetContacts(db: Db, tenant: nat, f: ContactFilter, page: int, pageSize: int): (r: (seq<Contact>, nat))
    ensures r.1 == |ContactRepo.Selected(db.contacts, tenant, f)|
    ensures forall c :: c in r.0 ==> c in db.contacts && c.tenantId == tenant && ContactRepo.Matches(f, c)
    ensures Sorted(r.0, ByName)
  {
    FindAllContacts(db.contacts, tenant, f, page, pageSize)
  }

  /** `UpdateContact`: the contact must exist in the tenant; the request
      keeps the stored tenant, a non-empty status must be one of the
      three, and then every column of the row is overwritten (GORM
      `Save`), an empty status included. */
  function UpdateContact(db: Db, tenant: nat, contact: Contact): (r: Result<Db>)
    ensures FindContact(db.contacts, tenant, contact.id).None? ==> r == Err(ContactNotFound)
    ensures (FindContact(db.contacts, tenant, contact.id).Some? && contact.status != ""
             && contact.status !in ContactStatuses) ==> r == Err(InvalidStatusOnUpdate)
    ensures r.Ok? <==> FindContact(db.contacts, tenant, contact.id).Some?
                       && (contact.status == "" || contact.status in ContactStatuses)
    ensures r.Ok? ==> r.value == db.(contacts := r.value.contacts) && |r.value.contacts| == |db.contacts|
    ensures r.Ok? ==> forall k :: 0 <= k < |db.contacts| ==>
              r.value.contacts[k] == if db.contacts[k].id == contact.id then contact.(tenantId := tenant)
                                     else db.contacts[k]
  {
    match FindContact(db.contacts, tenant, contact.id)
    case None => Err(ContactNotFound)
    case Some(existing) =>
      var c := contact.(tenantId := existing.tenantId);
      if c.status != "" && c.status !in ContactStatuses then Err(InvalidStatusOnUpdate)
      else Ok(db.(contacts := SaveContact(db.contacts, c)))
  }

  /** `DeleteContact`: the contact must exist in the tenant. */
  function DeleteContact(db: Db, tenant: nat, id: nat): (r: Result<Db>)
    ensures r.Ok? <==> FindContact(db.contacts, tenant, id).Some?
    ensures r.Err? ==> r.msg == ContactNotFound
    ensures r.Ok? ==> r.value == db.(contacts := r.value.contacts)
    ensures r.Ok? ==> forall c :: c in r.value.contacts <==> c in db.contacts && !(c.id == id && c.tenantId == tenant)
  {
    if FindContact(db.contacts, tenant, id).None? then Err(ContactNotFound)
    else Ok(db.(contacts := DeleteContactRow(db.contacts, tenant, id)))
  }

  /** `SearchContacts`: the repository's search, unchanged. */
  function SearchContacts(db: Db, tenant: nat, q: string, page: int, pageSize: int): (r: (seq<Contact>, nat))
    ensures forall c :: c in r.0 ==> c.tenantId == tenant && (q != "" ==> SearchHit(c, q))
    ensures r.1 == Count(db.contacts, (c: Contact) => c.tenantId == tenant && (q != "" ==> SearchHit(c, q)))
  {
    ContactRepo.SearchContacts(db.contacts, tenant, q, page, pageSize)
  }

  // ---------------------------------------------------------------------
  // Round trips through the store
  // ---------------------------------------------------------------------

  /** A created contact is found again under its new key. */
  lemma CreateThenGet(db: Db, contact: Contact)
    requires Valid(db) && CreateContact(db, contact).Ok?
    ensures var (db', c) := CreateContact(db, contact).value;
            GetContact(db', contact.tenantId, c.id) == Ok(c)
  {
    var (db', c) := CreateContact(db, contact).value;
    var found := FindContact(db'.contacts, contact.tenantId, c.id);
    assert db'.contacts[|db.contacts|] == c;
    var k :| 0 <= k < |db'.contacts| && db'.contacts[k] == found.value;
    if k < |db.contacts| {
      assert false;
    }
  }

  /** An updated contact reads back as written, under the same tenant. */
  lemma UpdateThenGet(db: Db, tenant: nat, contact: Contact)
    requires Valid(db) && UpdateContact(db, tenant, contact).Ok?
    ensures GetContact(UpdateContact(db, tenant, contact).value, tenant, contact.id) == Ok(contact.(tenantId := tenant))
  {
    var db' := UpdateContact(db, tenant, contact).value;
    var saved := contact.(tenantId := tenant);
    SameKeysKeepsKeys(db.contacts, db'.contacts, ContactKey, db.nextId);
    var existing := FindContact(db.contacts, tenant, contact.id).value;
    var j :| 0 <= j < |db.contacts| && db.contacts[j] == existing;
    assert db'.contacts[j] == saved;
    var found := FindContact(db'.contacts, tenant, contact.id).value;
    OnlyRowWithKey(db'.contacts, ContactKey, db.nextId, found);
  }

  /** A deleted contact is no longer found. */
  lemma DeleteThenGet(db: Db, tenant: nat, id: nat)
    requires DeleteContact(db, tenant, id).Ok?
    ensures GetContact(DeleteContact(db, tenant, id).value, tenant, id) == Err(ContactNotFound)
  {
  }

  /** Updating another tenant's contact is refused, whatever the request. */
  lemma UpdateIsTenantScoped(db: Db, tenant: nat, contact: Contact)
    requires forall k :: 0 <= k < |db.contacts| ==> db.contacts[k].tenantId != tenant
    ensures UpdateContact(db, tenant, contact) == Err(ContactNotFound)
  {
  }

  lemma CreateContactKeepsValid(db: Db, contact: Contact)
    requires Valid(db) && CreateContact(db, contact).Ok?
    ensures Valid(CreateContact(db, contact).value.0)
  {
    var (db', c) := CreateContact(db, contact).value;
    AppendBatchKeepsKeys(db.contacts, [c], ContactKey, db.nextId, db'.nextId);
    ValidAfter(db, db');
  }

  lemma UpdateContactKeepsValid(db: Db, tenant: nat, contact: Contact)
    requires Valid(db) && UpdateContact(db, tenant, contact).Ok?
    ensures Valid(UpdateContact(db, tenant, contact).value)
  {
    var db' := UpdateContact(db, tenant, contact).value;
    SameKeysKeepsKeys(db.contacts, db'.contacts, ContactKey, db.nextId);
    ValidAfter(db, db');
  }

  lemma DeleteContactKeepsValid(db: Db, tenant: nat, id: nat)
    requires Valid(db) && DeleteContact(db, tenant, id).Ok?
    ensures Valid(DeleteContact(db, tenant, id).value)
  {
    var db' := DeleteContact(db, tenant, id).value;
    FilterKeepsKeys(db.contacts, ContactKey, db.nextId, (c: Contact) => !(c.id == id && c.tenantId == tenant));
    ValidAfter(db, db');
  }
}
