/** The contact repository (`repository/contact_repository.go`) over the
    in-memory contact table. */
module ContactRepo {
  import opened Wrappers
  import opened Seqs
  import opened Text
  import opened Entities
  import opened Scopes
  import StringArray

  /** `model.ContactFilter`; a nil filter behaves as the all-empty one. */
  datatype ContactFilter = ContactFilter(
    search: string, status: string, source: string,
    tags: seq<string>, city: string, province: string)

  const EmptyFilter := ContactFilter("", "", "", [], "", "")

  /** `FindByID`: the contact with this key, looked up inside the tenant. */
  function FindContact(contacts: seq<Contact>, tenant: nat, id: nat): (r: Option<Contact>)
    ensures r.Some? <==> exists k :: 0 <= k < |contacts| && contacts[k].id == id && contacts[k].tenantId == tenant
    ensures r.Some? ==> r.value in contacts && r.value.id == id && r.value.tenantId == tenant
  {
    if |contacts| == 0 then None
    else if contacts[0].id == id && contacts[0].tenantId == tenant then Some(contacts[0])
    else
      var r := FindContact(contacts[1..], tenant, id);
      assert forall k :: 1 <= k < |contacts| ==> contacts[k] == contacts[1..][k - 1];
      r
  }

  /** The search clause: the lower-cased term inside the lower-cased first
      name, last name, email, phone or company name. */
  predicate SearchHit(c: Contact, term: string)
  {
    || ContainsFold(c.firstName, term) || ContainsFold(c.lastName, term)
    || ContainsFold(c.email, term) || ContainsFold(c.phone, term)
    || ContainsFold(c.companyName, term)
  }

  /** The whole `WHERE` clause of `FindAll` (besides the tenant scope).
      Each tag is a `LIKE '%tag%'` on the stored JSON text of the tags,
      which a NULL column never matches. */
  predicate Matches(f: ContactFilter, c: Contact)
  {
    && (f.search != "" ==> SearchHit(c, f.search))
    && (f.status != "" ==> c.status == f.status)
    && (f.source != "" ==> c.source == f.source)
    && (f.city != "" ==> c.city == f.city)
    && (f.province != "" ==> c.province == f.province)
    && (forall k :: 0 <= k < |f.tags| ==> StringArray.ColumnLike(c.tags, f.tags[k]))
  }

  /** The rows `FindAll` counts: the tenant's contacts that match. */
  function Selected(contacts: seq<Contact>, tenant: nat, f: ContactFilter): (r: seq<Contact>)
    ensures forall c :: c in r <==> c in contacts && c.tenantId == tenant && Matches(f, c)
  {
    Filter(contacts, (c: Contact) => c.tenantId == tenant && Matches(f, c))
  }

  /** `first_name ASC, last_name ASC`. */
  predicate ByName(a: Contact, b: Contact)
  {
    if a.firstName != b.firstName then LexLe(a.firstName, b.firstName) else LexLe(a.lastName, b.lastName)
  }

  lemma ByNameIsTotalPreorder()
    ensures TotalPreorder(ByName)
  {
    forall a: Contact, b: Contact
      ensures ByName(a, b) || ByName(b, a)
    {
      LexLeTotal(a.firstName, b.firstName);
      LexLeTotal(a.lastName, b.lastName);
    }
    forall a: Contact, b: Contact, c: Contact | ByName(a, b) && ByName(b, c)
      ensures ByName(a, c)
    {
      ByNameTransitive(a, b, c);
    }
  }

  lemma ByNameTransitive(a: Contact, b: Contact, c: Contact)
    requires ByName(a, b) && ByName(b, c)
    ensures ByName(a, c)
  {
    if a.firstName != b.firstName && b.firstName != c.firstName {
      LexLeTransitive(a.firstName, b.firstName, c.firstName);
      if a.firstName == c.firstName {
        LexLeAntisymmetric(a.firstName, b.firstName);
      }
    } else if a.firstName == b.firstName && b.firstName == c.firstName {
      LexLeTransitive(a.lastName, b.lastName, c.lastName);
    }
  }

  /** `FindAll`: the matching contacts of the tenant, ordered by name, one
      page of them, and the number of matches before pagination. */
  function FindAllContacts(contacts: seq<Contact>, tenant: nat, f: ContactFilter, page: int, pageSize: int)
    : (r: (seq<Contact>, nat))
    ensures r.1 == |Selected(contacts, tenant, f)|
    ensures |r.0| <= r.1 && |r.0| <= ClampPageSize(pageSize)
    ensures forall c :: c in r.0 ==> c in contacts && c.tenantId == tenant && Matches(f, c)
    ensures Sorted(r.0, ByName)
  {
    var all := Selected(contacts, tenant, f);
    var sorted := SortBy(all, ByName);
    ByNameIsTotalPreorder();
    SortBySorted(all, ByName);
    var p := Paginate(page, pageSize);
    WindowKeepsSorted(sorted, p.offset, p.limit, ByName);
    var rows := ApplyPage(sorted, p);
    assert forall c :: c in rows ==> c in multiset(sorted);
    (rows, |all|)
  }

  /** The tenant's matching contacts are spread over the pages: the row at
      position `i` of the name order is on page `i / size + 1`. */
  lemma ContactPagesTile(contacts: seq<Contact>, tenant: nat, f: ContactFilter, pageSize: int, i: nat)
    requires 1 <= pageSize <= MaxPageSize
    requires i < |Selected(contacts, tenant, f)|
    ensures var sorted := SortBy(Selected(contacts, tenant, f), ByName);
            var pg := FindAllContacts(contacts, tenant, f, i / pageSize + 1, pageSize).0;
            i % pageSize < |pg| && pg[i % pageSize] == sorted[i]
  {
    PagesTile(SortBy(Selected(contacts, tenant, f), ByName), pageSize, i);
  }

  /** A page whose offset does not pass the last match holds at least one
      contact. */
  lemma PageNotEmpty(contacts: seq<Contact>, tenant: nat, f: ContactFilter, page: int, pageSize: int)
    requires Paginate(page, pageSize).offset < |Selected(contacts, tenant, f)|
    ensures |FindAllContacts(contacts, tenant, f, page, pageSize).0| > 0
  {
    var p := Paginate(page, pageSize);
    var sorted := SortBy(Selected(contacts, tenant, f), ByName);
    WindowSize(sorted, p.offset, p.limit);
  }

  /** The listing depends on the page size only through its clamped value. */
  lemma FindAllClamped(contacts: seq<Contact>, tenant: nat, f: ContactFilter, page: int, pageSize: int)
    ensures FindAllContacts(contacts, tenant, f, page, pageSize)
            == FindAllContacts(contacts, tenant, f, page, ClampPageSize(pageSize))
  {
    assert Paginate(page, pageSize) == Paginate(page, ClampPageSize(pageSize));
  }

  /** `Search`: `FindAll` with only the search term set. */
  function SearchContacts(contacts: seq<Contact>, tenant: nat, q: string, page: int, pageSize: int)
    : (r: (seq<Contact>, nat))
    ensures forall c :: c in r.0 ==> c.tenantId == tenant && (q != "" ==> SearchHit(c, q))
    ensures r.1 == Count(contacts, (c: Contact) => c.tenantId == tenant && (q != "" ==> SearchHit(c, q)))
  {
    var f := EmptyFilter.(search := q);
    FilterCongruent(contacts, (c: Contact) => c.tenantId == tenant && Matches(f, c),
                    (c: Contact) => c.tenantId == tenant && (q != "" ==> SearchHit(c, q)));
    FindAllContacts(contacts, tenant, f, page, pageSize)
  }

  /** The empty filter lets every contact of the tenant through. */
  lemma EmptyFilterSelectsTenant(contacts: seq<Contact>, tenant: nat)
    ensures Selected(contacts, tenant, EmptyFilter) == Filter(contacts, (c: Contact) => c.tenantId == tenant)
  {
    FilterCongruent(contacts, (c: Contact) => c.tenantId == tenant && Matches(EmptyFilter, c),
                    (c: Contact) => c.tenantId == tenant);
  }

  /** Several tags are a conjunction: a contact matching a filter with tags
      `a + b` matches the filter with tags `a` and the one with tags `b`. */
  lemma TagsAreConjunctive(f: ContactFilter, a: seq<string>, b: seq<string>, c: Contact)
    requires Matches(f.(tags := a + b), c)
    ensures Matches(f.(tags := a), c) && Matches(f.(tags := b), c)
  {
    forall k | 0 <= k < |a| ensures StringArray.ColumnLike(c.tags, a[k]) {
      assert (a + b)[k] == a[k];
    }
    forall k | 0 <= k < |b| ensures StringArray.ColumnLike(c.tags, b[k]) {
      assert (a + b)[|a| + k] == b[k];
    }
  }

  /** Every tag a contact holds, if it has no character that JSON escapes,
      is found by the tag filter. */
  lemma HeldTagsMatch(f: ContactFilter, c: Contact)
    requires f == EmptyFilter.(tags := f.tags)
    requires c.tags.Some? && forall k :: 0 <= k < |f.tags| ==> f.tags[k] in c.tags.value
    requires forall k, i :: 0 <= k < |f.tags| && 0 <= i < |f.tags[k]| ==> StringArray.IsPlain(f.tags[k][i])
    ensures Matches(f, c)
  {
    forall k | 0 <= k < |f.tags|
      ensures StringArray.ColumnLike(c.tags, f.tags[k])
    {
      QuotedTagMatches(c.tags.value, f.tags[k]);
    }
  }

  /** A contact created without tags is stored as NULL and fails every
      tag filter, even `tags=,` (two empty tags), which a contact with an
      empty list, stored as `[]`, passes. */
  lemma UntaggedContactsFailTagFilters(f: ContactFilter, c: Contact)
    requires |f.tags| > 0 && c.tags.None?
    ensures !Matches(f, c)
    ensures Matches(EmptyFilter.(tags := ["", ""]), c.(tags := Some([])))
  {
    assert !StringArray.ColumnLike(c.tags, f.tags[0]);
    EmptyIsContained("[]");
  }

  lemma QuotedTagMatches(tags: seq<string>, t: string)
    requires t in tags
    requires forall i :: 0 <= i < |t| ==> StringArray.IsPlain(t[i])
    ensures Contains(StringArray.Value(tags), t)
  {
    StringArray.StoredTextContainsTag(tags, t);
    ContainsItself(t);
    ContainsExtended("\"", t, "\"", t);
    ContainsTransitive(StringArray.Value(tags), "\"" + t + "\"", t);
  }

  /** `Update` is GORM `Save`: every column is overwritten by the row with
      the same key. */
  function SaveContact(contacts: seq<Contact>, c: Contact): (r: seq<Contact>)
    ensures |r| == |contacts|
    ensures forall k :: 0 <= k < |contacts| ==> r[k] == if contacts[k].id == c.id then c else contacts[k]
  {
    if |contacts| == 0 then []
    else [if contacts[0].id == c.id then c else contacts[0]] + SaveContact(contacts[1..], c)
  }

  /** `Delete`: removes the tenant's row with this key. */
  function DeleteContactRow(contacts: seq<Contact>, tenant: nat, id: nat): (r: seq<Contact>)
    ensures forall c :: c in r <==> c in contacts && !(c.id == id && c.tenantId == tenant)
  {
    Filter(contacts, (c: Contact) => !(c.id == id && c.tenantId == tenant))
  }
}
