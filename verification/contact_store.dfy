/** The client's contact store (`stores/contactStore.ts`): the listed
    contacts, the filters they were fetched with, and the pagination the
    server reported. */
module ContactStore {
  import opened Wrappers
  import opened Client

  datatype ContactPagination = ContactPagination(page: int, pageSize: int, total: int, totalPages: int)

  datatype ContactStoreState = ContactStoreState(
    contacts: seq<ClientContact>, currentContact: Option<ClientContact>, filters: Obj,
    isLoading: bool, error: Option<string>, pagination: ContactPagination)

  /** The filters a fresh store and `clearFilters` start from. */
  const DefaultFilters: Obj := map["page" := Num(1), "page_size" := Num(20)]

  const Initial := ContactStoreState([], None, DefaultFilters, false, None, ContactPagination(1, 20, 0, 1))

  /** The body of `GET /contacts` and `GET /contacts/search`. */
  datatype ContactsResponse = ContactsResponse(contacts: seq<ClientContact>, page: int, pageSize: int, total: int, totalPages: int)

  /** Reading a key of a JavaScript object: `undefined` when it is absent. */
  function Field(o: Obj, k: string): (v: JsVal)
    ensures k in o ==> v == o[k]
    ensures k !in o ==> v == Undefined
  {
    if k in o then o[k] else Undefined
  }

  /** `fetchContacts(filters?)`: the merged filters are stored before the
      request and sent with it; a success replaces the contacts and the
      pagination wholesale. */
  function FetchContacts(s: ContactStoreState, filters: Option<Obj>, resp: Answer<ContactsResponse>)
    : (r: Step<ContactStoreState, ()>)
    ensures r.requests == [Get("/contacts", r.state.filters)]
    ensures filters.None? ==> r.state.filters == s.filters
    ensures filters.Some? ==> (forall k :: k in r.state.filters <==> k in s.filters || k in filters.value)
                              && (forall k :: k in filters.value ==> r.state.filters[k] == filters.value[k])
                              && (forall k :: k in s.filters && k !in filters.value ==> r.state.filters[k] == s.filters[k])
    ensures !r.state.isLoading && r.state.currentContact == s.currentContact
    ensures resp.Answered? ==> && r.result == Resolved(()) && r.state.error.None?
                               && r.state.contacts == resp.data.contacts
                               && r.state.pagination == ContactPagination(resp.data.page, resp.data.pageSize, resp.data.total, resp.data.totalPages)
    ensures resp.Failed? ==> && r.result == Rejected(resp.serverError)
                             && r.state.contacts == s.contacts && r.state.pagination == s.pagination
                             && r.state.error == Some(ErrorMessage(resp.serverError, "Failed to fetch contacts"))
  {
    var current := if filters.Some? then Spread(s.filters, filters.value) else s.filters;
    var s1 := s.(isLoading := true, error := None, filters := current);
    var req := Get("/contacts", current);
    match resp
    case Answered(d) =>
      Step(s1.(contacts := d.contacts, pagination := ContactPagination(d.page, d.pageSize, d.total, d.totalPages),
               isLoading := false), [req], Resolved(()))
    case Failed(e) =>
      Step(s1.(error := Some(ErrorMessage(e, "Failed to fetch contacts")), isLoading := false), [req], Rejected(e))
  }

  /** `fetchContactById(id)`. */
  function FetchContactById(s: ContactStoreState, id: nat, resp: Answer<ClientContact>): (r: Step<ContactStoreState, ()>)
    ensures r.requests == [Get(ItemPath("/contacts", id), map[])]
    ensures !r.state.isLoading && r.state.contacts == s.contacts && r.state.filters == s.filters
    ensures resp.Answered? ==> r.state.currentContact == Some(resp.data) && r.state.error.None? && r.result == Resolved(())
    ensures resp.Failed? ==> && r.state.currentContact == s.currentContact
                             && r.state.error == Some(ErrorMessage(resp.serverError, "Failed to fetch contact"))
                             && r.result == Rejected(resp.serverError)
  {
    var req := Get(ItemPath("/contacts", id), map[]);
    match resp
    case Answered(c) => Step(s.(currentContact := Some(c), isLoading := false, error := None), [req], Resolved(()))
    case Failed(e) => Step(s.(error := Some(ErrorMessage(e, "Failed to fetch contact")), isLoading := false), [req], Rejected(e))
  }

  /** The shared shape of the mutations: the request, then on success
      `fetchContacts()` with the stored filters, after the success handler
      has set the current contact to `current`.  A failure of either
      request is reported with the mutation's own fallback message and
      rethrown. */
  function Mutation<T>(s: ContactStoreState, req: Request, resp: Answer<T>, current: Option<ClientContact>,
                       refetch: Answer<ContactsResponse>, fallback: string)
    : (r: Step<ContactStoreState, T>)
    ensures !r.state.isLoading && r.state.filters == s.filters
    ensures resp.Failed? ==> && r.requests == [req]
                             && r.state == s.(isLoading := false, error := Some(ErrorMessage(resp.serverError, fallback)))
                             && r.result == Rejected(resp.serverError)
    ensures resp.Answered? ==> r.requests == [req, Get("/contacts", s.filters)]
    ensures resp.Answered? && refetch.Answered? ==>
              && r.result == Resolved(resp.data)
              && r.state == FetchContacts(s.(currentContact := current, isLoading := false, error := None), None, refetch).state
    ensures resp.Answered? && refetch.Failed? ==>
              && r.result == Rejected(refetch.serverError)
              && r.state.error == Some(ErrorMessage(refetch.serverError, fallback))
              && r.state.contacts == s.contacts && r.state.currentContact == current
  {
    match resp
    case Failed(e) => Step(s.(isLoading := false, error := Some(ErrorMessage(e, fallback))), [req], Rejected(e))
    case Answered(v) =>
      var f := FetchContacts(s.(currentContact := current, isLoading := false, error := None), None, refetch);
      match f.result
      case Resolved(_) => Step(f.state, [req] + f.requests, Resolved(v))
      case Rejected(e) =>
        Step(f.state.(error := Some(ErrorMessage(e, fallback)), isLoading := false), [req] + f.requests, Rejected(e))
  }

  /** `createContact(data)`: resolves with the created contact. */
  function CreateContact(s: ContactStoreState, data: Obj, resp: Answer<ClientContact>, refetch: Answer<ContactsResponse>)
    : Step<ContactStoreState, ClientContact>
  {
    Mutation(s, Request(POST, "/contacts", map[], data), resp, s.currentContact, refetch, "Failed to create contact")
  }

  /** `updateContact(id, data)`: the answered contact becomes the current
      one before the list is refetched. */
  function UpdateContact(s: ContactStoreState, id: nat, data: Obj, resp: Answer<ClientContact>, refetch: Answer<ContactsResponse>)
    : Step<ContactStoreState, ()>
  {
    var req := Request(PATCH, ItemPath("/contacts", id), map[], data);
    match resp
    case Answered(c) =>
      var r := Mutation(s, req, resp, Some(c), refetch, "Failed to update contact");
      Step(r.state, r.requests, if r.result.Resolved? then Resolved(()) else Rejected(r.result.serverError))
    case Failed(e) =>
      var r := Mutation<()>(s, req, Failed(e), s.currentContact, refetch, "Failed to update contact");
      r
  }

  /** `deleteContact(id)`. */
  function DeleteContact(s: ContactStoreState, id: nat, resp: Answer<()>, refetch: Answer<ContactsResponse>)
    : Step<ContactStoreState, ()>
  {
    Mutation(s, Request(DELETE, ItemPath("/contacts", id), map[], map[]), resp, s.currentContact, refetch, "Failed to delete contact")
  }

  /** The query `searchContacts(query, page)` sends: the stored
      `page_size`, never the other stored filters. */
  function SearchParams(s: ContactStoreState, query: string, page: int): Obj
  {
    map["q" := Str(query), "page" := Num(page), "page_size" := Field(s.filters, "page_size")]
  }

  /** `searchContacts(query, page = 1)`: the filters are left alone, and a
      reported page count of zero is shown as one page. */
  function SearchContacts(s: ContactStoreState, query: string, page: int, resp: Answer<ContactsResponse>)
    : (r: Step<ContactStoreState, ()>)
    ensures r.state.filters == s.filters && !r.state.isLoading && r.state.currentContact == s.currentContact
    ensures |r.requests| == 1 && r.requests[0].verb == GET && r.requests[0].path == "/contacts/search"
    ensures r.requests[0].params.Keys == {"q", "page", "page_size"}
    ensures r.requests[0].params["q"] == Str(query) && r.requests[0].params["page"] == Num(page)
    ensures r.requests[0].params["page_size"] == Field(s.filters, "page_size")
    ensures resp.Answered? ==> && r.result == Resolved(()) && r.state.error.None?
                               && r.state.contacts == resp.data.contacts
                               && r.state.pagination.total == resp.data.total
                               && r.state.pagination.totalPages != 0
    ensures resp.Answered? && resp.data.totalPages != 0 ==> r.state.pagination.totalPages == resp.data.totalPages
    ensures resp.Failed? ==> && r.result == Rejected(resp.serverError) && r.state.contacts == s.contacts
                             && r.state.error == Some(ErrorMessage(resp.serverError, "Failed to search contacts"))
  {
    var req := Get("/contacts/search", SearchParams(s, query, page));
    match resp
    case Answered(d) =>
      Step(s.(contacts := d.contacts,
              pagination := ContactPagination(d.page, d.pageSize, d.total, OrOne(d.totalPages)),
              isLoading := false, error := None), [req], Resolved(()))
    case Failed(e) =>
      Step(s.(error := Some(ErrorMessage(e, "Failed to search contacts")), isLoading := false), [req], Rejected(e))
  }

  /** `setFilters(filters)`: merged over the stored ones, no request. */
  function SetFilters(s: ContactStoreState, filters: Obj): (r: ContactStoreState)
    ensures r == s.(filters := r.filters)
    ensures forall k :: k in filters ==> k in r.filters && r.filters[k] == filters[k]
    ensures forall k :: k in s.filters && k !in filters ==> k in r.filters && r.filters[k] == s.filters[k]
  {
    s.(filters := Spread(s.filters, filters))
  }

  /** `clearFilters()`. */
  function ClearFilters(s: ContactStoreState): (r: ContactStoreState)
    ensures r == s.(filters := map["page" := Num(1), "page_size" := Num(20)])
    ensures r.filters == Initial.filters
  {
    s.(filters := DefaultFilters)
  }

  /** `clearError()`. */
  function ClearError(s: ContactStoreState): (r: ContactStoreState)
    ensures r.error.None? && r == s.(error := None)
  {
    s.(error := None)
  }

  /** Create, update and delete, once their own request succeeds, refetch
      with exactly the filters stored before them; a successful update
      keeps the answered contact as the current one even when the refetch
      fails. */
  lemma MutationsRefetchWithStoredFilters(s: ContactStoreState, id: nat, data: Obj, c: ClientContact,
                                          done: Answer<()>, refetch: Answer<ContactsResponse>)
    ensures var r := CreateContact(s, data, Answered(c), refetch);
            r.requests == [Request(POST, "/contacts", map[], data), Get("/contacts", s.filters)]
            && r.state.filters == s.filters
    ensures var r := UpdateContact(s, id, data, Answered(c), refetch);
            r.requests == [Request(PATCH, ItemPath("/contacts", id), map[], data), Get("/contacts", s.filters)]
            && r.state.currentContact == Some(c) && r.state.filters == s.filters
    ensures done.Answered? ==> DeleteContact(s, id, done, refetch).requests[1] == Get("/contacts", s.filters)
    ensures done.Failed? ==> DeleteContact(s, id, done, refetch).requests == [Request(DELETE, ItemPath("/contacts", id), map[], map[])]
  {
  }

  /** A search leaves the stored filters alone, so the next plain
      `fetchContacts()` asks for the list the search interrupted. */
  lemma SearchThenFetchRestoresList(s: ContactStoreState, query: string, page: int,
                                    found: Answer<ContactsResponse>, listed: Answer<ContactsResponse>)
    ensures var s1 := SearchContacts(s, query, page, found).state;
            FetchContacts(s1, None, listed).requests == FetchContacts(s, None, listed).requests
  {
  }

  /** Setting the same filters twice is setting them once, a fetch with
      filters stores what `setFilters` would, and clearing returns the
      filters of a fresh store. */
  lemma FilterUpdatesAgree(s: ContactStoreState, filters: Obj, resp: Answer<ContactsResponse>)
    ensures SetFilters(SetFilters(s, filters), filters) == SetFilters(s, filters)
    ensures FetchContacts(s, Some(filters), resp).state.filters == SetFilters(s, filters).filters
    ensures FetchContacts(ClearFilters(s), None, resp).requests == [Get("/contacts", DefaultFilters)]
  {
    SpreadIdempotent(s.filters, filters);
  }
}
