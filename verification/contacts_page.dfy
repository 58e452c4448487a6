/** The view logic of the contacts page (`ContactsPage.tsx`): the filter
    object it hands to the contact store, its pager, and its badges and
    labels. */
module ContactsPage {
  import opened Wrappers
  import opened Text
  import opened Client
  import ContactStore

  /** The page's controls; "all" switches a select off. */
  datatype Controls = Controls(currentPage: int, search: string, status: string, source: string)

  /** The object built in the effect, as written: page and page size
      always, the other keys only when set. */
  function QueryAsWritten(c: Controls): (q: Obj)
    ensures "page" in q && "page_size" in q && q["page"] == Num(c.currentPage) && q["page_size"] == Num(20)
    ensures "search" in q <==> c.search != ""
    ensures "status" in q <==> c.status != "all"
    ensures "source" in q <==> c.source != "all"
    ensures "search" in q ==> q["search"] == Str(c.search)
    ensures "status" in q ==> q["status"] == Str(c.status)
    ensures "source" in q ==> q["source"] == Str(c.source)
    ensures q.Keys <= {"page", "page_size", "search", "status", "source"}
  {
    var base := map["page" := Num(c.currentPage), "page_size" := Num(20)];
    var withSearch := if c.search != "" then base["search" := Str(c.search)] else base;
    var withStatus := if c.status != "all" then withSearch["status" := Str(c.status)] else withSearch;
    if c.source != "all" then withStatus["source" := Str(c.source)] else withStatus
  }

  /** The effect as written: `fetchContacts(query)`. */
  function ApplyAsWritten(s: ContactStore.ContactStoreState, c: Controls, resp: Answer<ContactStore.ContactsResponse>)
    : Step<ContactStore.ContactStoreState, ()>
  {
    ContactStore.FetchContacts(s, Some(QueryAsWritten(c)), resp)
  }

  /** Clearing the search box after a search still sends the old search:
      the page leaves the key out, and the store's merge keeps the stored
      value. */
  lemma ClearedSearchIsStillSent(s: ContactStore.ContactStoreState, typed: string,
                                 r1: Answer<ContactStore.ContactsResponse>, r2: Answer<ContactStore.ContactsResponse>)
    requires typed != ""
    ensures var s1 := ApplyAsWritten(s, Controls(1, typed, "all", "all"), r1).state;
            var sent := ApplyAsWritten(s1, Controls(1, "", "all", "all"), r2).requests[0].params;
            "search" in sent && sent["search"] == Str(typed)
  {
  }

  /** The object with every filter key present: an unset filter is sent
      as `undefined`, which overrides the stored value in the merge and is
      left out of the query string. */
  function Query(c: Controls): (q: Obj)
    ensures q.Keys == {"page", "page_size", "search", "status", "source"}
    ensures q["page"] == Num(c.currentPage) && q["page_size"] == Num(20)
    ensures q["search"] == (if c.search != "" then Str(c.search) else Undefined)
    ensures q["status"] == (if c.status != "all" then Str(c.status) else Undefined)
    ensures q["source"] == (if c.source != "all" then Str(c.source) else Undefined)
  {
    map["page" := Num(c.currentPage), "page_size" := Num(20),
        "search" := if c.search != "" then Str(c.search) else Undefined,
        "status" := if c.status != "all" then Str(c.status) else Undefined,
        "source" := if c.source != "all" then Str(c.source) else Undefined]
  }

  function Apply(s: ContactStore.ContactStoreState, c: Controls, resp: Answer<ContactStore.ContactsResponse>)
    : Step<ContactStore.ContactStoreState, ()>
  {
    ContactStore.FetchContacts(s, Some(Query(c)), resp)
  }

  /** With every key present, what is sent depends only on the controls,
      never on what earlier searches stored (other stored keys aside). */
  lemma QuerySendsOnlyTheControls(s: ContactStore.ContactStoreState, t: ContactStore.ContactStoreState, c: Controls,
                                  r1: Answer<ContactStore.ContactsResponse>, r2: Answer<ContactStore.ContactsResponse>)
    ensures forall k :: k in Query(c) ==> Apply(s, c, r1).requests[0].params[k] == Apply(t, c, r2).requests[0].params[k]
    ensures c.search == "" ==> Apply(s, c, r1).requests[0].params["search"] == Undefined
  {
  }

  /** The pager: shown when the page has rows and the total is positive;
      the page count falls back to one when the server reports zero. */
  datatype ContactsPager = ContactsPager(shown: bool, pageCount: int, previousDisabled: bool, nextDisabled: bool)

  function Pager(rows: nat, currentPage: int, p: ContactStore.ContactPagination): (g: ContactsPager)
    ensures g.shown <==> rows > 0 && p.total > 0
    ensures g.pageCount != 0 && (p.totalPages != 0 ==> g.pageCount == p.totalPages)
    ensures g.previousDisabled <==> currentPage == 1
    ensures g.nextDisabled <==> currentPage >= g.pageCount
  {
    ContactsPager(rows > 0 && p.total > 0, OrOne(p.totalPages), PreviousDisabled(currentPage), currentPage >= OrOne(p.totalPages))
  }

  datatype Color = GreenBadge | GrayBadge | RedBadge | BlueBadge | PurpleBadge | OrangeBadge | CyanBadge | PinkBadge

  /** `getStatusBadgeColor`. */
  function StatusBadge(status: string): (c: Color)
    ensures status == "active" <==> c == GreenBadge
    ensures status == "blocked" <==> c == RedBadge
    ensures c == GreenBadge || c == RedBadge || c == GrayBadge
  {
    if status == "active" then GreenBadge
    else if status == "blocked" then RedBadge
    else GrayBadge
  }

  /** `getSourceBadgeColor`: a distinct color per known source, gray for
      anything else. */
  function SourceBadge(source: string): (c: Color)
    ensures c == GrayBadge <==> source !in ["website", "referral", "ads", "cold_call", "event"]
  {
    match source
    case "website" => BlueBadge
    case "referral" => PurpleBadge
    case "ads" => OrangeBadge
    case "cold_call" => CyanBadge
    case "event" => PinkBadge
    case _ => GrayBadge
  }

  /** Different known sources never share a color. */
  lemma SourceBadgesDistinct(a: string, b: string)
    requires a in ["website", "referral", "ads", "cold_call", "event"] && a != b
    ensures SourceBadge(a) != SourceBadge(b)
  {
  }

  /** The status cell: the status with its first letter upper-cased. */
  function StatusLabel(status: string): string { Capitalize(status) }

  /** The source cell: the underscore-separated words, capitalised. */
  function SourceLabel(source: string): string { TitleWords(source) }

  lemma ColdCallLabel(source: string)
    requires source == "cold_call"
    ensures SourceLabel(source) == "Cold Call"
  {
    assert source == "cold" + "_" + "call";
    TitleWordsCons("cold", "call");
    TitleWordsOne("call");
  }

  lemma StatusLabels()
    ensures StatusLabel("active") == "Active" && StatusLabel("inactive") == "Inactive" && StatusLabel("blocked") == "Blocked"
  {
  }
}
