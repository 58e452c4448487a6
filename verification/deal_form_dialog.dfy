/** The deal dialog of the pipeline page
    (`pages/pipeline/components/DealFormDialog.tsx`): how a deal prefills
    the form, how the form's date and optional numbers are sent, the
    contact picker's search, and the create-or-update submit. */
module DealFormDialog {
  import opened Wrappers
  import opened Seqs
  import opened Text
  import opened Client
  import DealStore
  import PipelineStore
  import ContactStore
  import PipelinePage

  /** The form's values.  The optional fields hold `undefined` or a number;
      the date input holds a `YYYY-MM-DD` string or nothing; the
      description holds `undefined` or a text. */
  datatype DealForm = DealForm(
    title: string, value: int, currency: string, stageId: JsVal, contactId: JsVal,
    expectedCloseDate: Option<string>, probability: JsVal, description: JsVal)

  /** What a new deal starts with: title empty, value 0, currency IDR,
      stage 0, everything else unset. */
  const NewDealDefaults := DealForm("", 0, "IDR", Num(0), Undefined, None, Undefined, Undefined)

  // ---------------------------------------------------------------------
  // The close date
  // ---------------------------------------------------------------------

  /** `expected_close_date?.split('T')[0] || undefined`: the date part of
      a stored timestamp; nothing when there is none or it is empty. */
  function PrefillDate(stored: Option<string>): (d: Option<string>)
    ensures stored.None? ==> d.None?
    ensures d.Some? ==> d.value != "" && 'T' !in d.value
    ensures d.Some? ==> StartsWith(stored.value, d.value)
  {
    match stored
    case None => None
    case Some(s) =>
      var p := Split(s, 'T')[0];
      assert StartsWith(s, p) by { DatePartIsPrefix(s); }
      if p == "" then None else Some(p)
  }

  lemma DatePartIsPrefix(s: string)
    ensures StartsWith(s, Split(s, 'T')[0])
  {
    if 'T' in s {
      var i := IndexOf(s, 'T');
      assert Split(s, 'T')[0] == s[..i];
    }
  }

  /** `d ? `${d}T00:00:00Z` : undefined`: midnight UTC of the picked day,
      or `undefined` when the field is empty or unset. */
  function SubmittedDate(d: Option<string>): (v: JsVal)
    ensures d.Some? && d.value != "" ==> v == Str(d.value + "T00:00:00Z")
    ensures d.None? || d.value == "" ==> v == Undefined
  {
    if d.Some? && d.value != "" then Str(d.value + "T00:00:00Z") else Undefined
  }

  /** A picked day that comes back as the submitted timestamp prefills as
      the same day. */
  lemma {:induction false} DateRoundTrip(d: string)
    requires d != "" && 'T' !in d
    ensures SubmittedDate(Some(d)).Str?
    ensures PrefillDate(Some(SubmittedDate(Some(d)).s)) == Some(d)
  {
    var s := d + "T00:00:00Z";
    assert s[|d|] == 'T';
    assert s[..|d|] == d;
    IndexOfFirst(s, 'T', |d|);
    assert Split(s, 'T')[0] == d;
  }

  /** Prefilling and submitting again keeps the day and drops the time of
      day: any stored timestamp `dTt` is sent back as `dT00:00:00Z`. */
  lemma {:induction false} ResubmitKeepsDay(d: string, time: string)
    requires d != "" && 'T' !in d
    ensures SubmittedDate(PrefillDate(Some(d + "T" + time))) == Str(d + "T00:00:00Z")
  {
    var s := d + "T" + time;
    assert s[|d|] == 'T';
    assert s[..|d|] == d;
    IndexOfFirst(s, 'T', |d|);
    assert Split(s, 'T')[0] == d;
  }

  // ---------------------------------------------------------------------
  // Optional numbers
  // ---------------------------------------------------------------------

  /** `x || undefined` for an optional id or a number: absent and zero
      (falsy) are both unset. */
  function OrUnset(x: Option<int>): (v: JsVal)
    ensures v == Undefined <==> x.None? || x.value == 0
    ensures v != Undefined ==> v == Num(x.value)
  {
    if x.Some? && x.value != 0 then Num(x.value) else Undefined
  }

  /** `text || undefined` for an optional text: absent and empty are both
      unset. */
  function TextOrUnset(x: Option<string>): (v: JsVal)
    ensures v == Undefined <==> x.None? || x.value == ""
    ensures v != Undefined ==> v == Str(x.value)
  {
    if x.Some? && x.value != "" then Str(x.value) else Undefined
  }

  /** The form a deal prefills (`reset({...})` on open), or the defaults. */
  function FormFor(deal: Option<ClientDeal>): (f: DealForm)
    ensures deal.None? ==> f.title == "" && f.value == 0 && f.currency == "IDR" && f.stageId == Num(0)
                           && f.contactId == Undefined && f.expectedCloseDate.None? && f.probability == Undefined
                           && f.description == Undefined
    ensures deal.Some? ==> && f.title == deal.value.title && f.value == deal.value.value
                           && f.currency == deal.value.currency
                           && (deal.value.contactId.Some? && deal.value.contactId.value != 0 <==> f.contactId.Num?)
                           && (deal.value.probability != 0 <==> f.probability == Num(deal.value.probability))
                           && f.expectedCloseDate == PrefillDate(deal.value.expectedCloseDate)
                           && (deal.value.description.Some? && deal.value.description.value != "" <==> f.description.Str?)
                           && (f.description.Str? ==> f.description.s == deal.value.description.value)
  {
    match deal
    case None => NewDealDefaults
    case Some(d) =>
      DealForm(d.title, d.value, d.currency, if d.stageId.Some? then Num(d.stageId.value) else Undefined,
               OrUnset(if d.contactId.Some? then Some(d.contactId.value as int) else None),
               PrefillDate(d.expectedCloseDate), OrUnset(Some(d.probability)), TextOrUnset(d.description))
  }

  /** Resubmitting an unedited deal sends its description back when it
      has one and leaves the field unset otherwise. */
  lemma ResubmitKeepsDescription(d: ClientDeal)
    ensures var o := SubmitBody(FormFor(Some(d)));
            && (d.description.Some? && d.description.value != "" ==> o["description"] == Str(d.description.value))
            && (d.description.None? || d.description.value == "" ==> o["description"] == Undefined)
  {
  }

  // ---------------------------------------------------------------------
  // Opening
  // ---------------------------------------------------------------------

  /** The stores as the open effect leaves them, and what it sent. */
  datatype OpenEffect = OpenEffect(
    pipeline: PipelineStore.PipelineStoreState, contacts: ContactStore.ContactStoreState, requests: seq<Request>)

  /** The effect run when `open` changes: an open dialog fetches the stages
      and the contacts (with an empty filter object, so the contact store
      asks again with the filters it already holds); a closed one does
      nothing. */
  function OnOpen(open: bool, pipeline: PipelineStore.PipelineStoreState, contacts: ContactStore.ContactStoreState,
                  stagesResp: Answer<seq<ClientStage>>, contactsResp: Answer<ContactStore.ContactsResponse>)
    : (e: OpenEffect)
    ensures !open ==> e == OpenEffect(pipeline, contacts, [])
    ensures open ==> e.requests == [Get(PipelineStore.StagesPath, map[]), Get("/contacts", contacts.filters)]
    ensures open ==> e.contacts.filters == contacts.filters
    ensures open && stagesResp.Answered? ==> e.pipeline.stages == stagesResp.data
    ensures open && contactsResp.Answered? ==> e.contacts.contacts == contactsResp.data.contacts
    ensures open && stagesResp.Failed? ==> e.pipeline.stages == pipeline.stages
    ensures open && contactsResp.Failed? ==> e.contacts.contacts == contacts.contacts
  {
    if !open then OpenEffect(pipeline, contacts, [])
    else
      var fs := PipelineStore.FetchStages(pipeline, stagesResp);
      var fc := ContactStore.FetchContacts(contacts, Some(map[]), contactsResp);
      assert fc.state.filters == contacts.filters;
      OpenEffect(fs.state, fc.state, fs.requests + fc.requests)
  }

  /** Reading the contact select back: the empty option is no contact, and
      an option written out from a contact's id reads back as that id. */
  lemma SelectReadsBack(id: nat)
    ensures EmptyOrNumber("") == Undefined
    ensures EmptyOrNumber(NatToString(id)) == Num(id)
  {
    EmptyOrNumberNatToString(id);
  }

  /** `{ ...data, expected_close_date: … }`: the body sent for the form. */
  function SubmitBody(f: DealForm): (o: Obj)
    ensures o.Keys == {"title", "value", "currency", "stage_id", "contact_id", "expected_close_date", "probability", "description"}
    ensures o["expected_close_date"] == SubmittedDate(f.expectedCloseDate)
    ensures o["contact_id"] == f.contactId && o["probability"] == f.probability && o["stage_id"] == f.stageId
    ensures o["title"] == Str(f.title) && o["value"] == Num(f.value) && o["currency"] == Str(f.currency)
    ensures o["description"] == f.description
  {
    var data := map["title" := Str(f.title), "value" := Num(f.value), "currency" := Str(f.currency),
                    "stage_id" := f.stageId, "contact_id" := f.contactId,
                    "expected_close_date" := if f.expectedCloseDate.Some? then Str(f.expectedCloseDate.value) else Undefined,
                    "probability" := f.probability, "description" := f.description];
    Spread(data, map["expected_close_date" := SubmittedDate(f.expectedCloseDate)])
  }

  // ---------------------------------------------------------------------
  // The contact picker
  // ---------------------------------------------------------------------

  /** `${c.email}` renders a missing email as the text `undefined`. */
  function EmailText(email: Option<string>): string
  {
    if email.Some? then email.value else "undefined"
  }

  /** `${first_name} ${last_name} ${email}`, the text a search looks in. */
  function ContactLine(c: ClientContact): string
  {
    c.firstName + " " + c.lastName + " " + EmailText(c.email)
  }

  /** The contact is offered when its line contains the search, ignoring
      case. */
  predicate ContactListed(c: ClientContact, search: string)
  {
    Contains(Lower(ContactLine(c)), Lower(search))
  }

  /** `contacts.filter(...)`: the offered contacts, in list order. */
  function FilteredContacts(contacts: seq<ClientContact>, search: string): (r: seq<ClientContact>)
    ensures forall c :: c in r <==> c in contacts && ContactListed(c, search)
    ensures IsSubsequence(r, contacts)
  {
    FilterIsSubsequence(contacts, c => ContactListed(c, search));
    Filter(contacts, c => ContactListed(c, search))
  }

  /** An empty search offers every contact, and a contact is always found
      by its first name typed in any case. */
  lemma {:induction false} PickerFindsByFirstName(contacts: seq<ClientContact>, c: ClientContact, typed: string)
    ensures FilteredContacts(contacts, "") == contacts
    ensures c in contacts && Lower(typed) == Lower(c.firstName) ==> c in FilteredContacts(contacts, typed)
  {
    forall x | x in contacts ensures ContactListed(x, "") {
      EmptyIsContained(Lower(ContactLine(x)));
    }
    FilterAll(contacts, x => ContactListed(x, ""));
    if c in contacts && Lower(typed) == Lower(c.firstName) {
      var line := Lower(ContactLine(c));
      var first := Lower(c.firstName);
      assert line[0..|first|] == first;
      assert OccursAt(line, Lower(typed), 0);
    }
  }

  // ---------------------------------------------------------------------
  // Submit
  // ---------------------------------------------------------------------

  /** The dialog after a submit. */
  datatype FormOutcome = FormOutcome(
    store: DealStore.DealStoreState, requests: seq<Request>, open: bool, form: DealForm,
    toast: PipelinePage.Toast)

  /** `onSubmit(data)`: an existing deal is patched, otherwise one is
      created; success closes the dialog and resets the form, a failure
      keeps it open as filled. */
  function SubmitDeal(store: DealStore.DealStoreState, deal: Option<ClientDeal>, data: DealForm,
                      created: Answer<ClientDeal>, updated: Answer<()>, refetch: Answer<DealStore.DealsResponse>)
    : (r: FormOutcome)
    ensures |r.requests| >= 1
    ensures deal.Some? ==> r.requests[0] == Request(PATCH, ItemPath("/deals", deal.value.id), map[], SubmitBody(data))
    ensures deal.None? ==> r.requests[0] == Request(POST, "/deals", map[], SubmitBody(data))
    ensures r.store.filters == store.filters
    ensures (if deal.Some? then updated.Answered? else created.Answered?) && refetch.Answered? ==>
              !r.open && r.form == FormFor(deal) && r.toast.Success? && r.store.deals == refetch.data.deals
    ensures !((if deal.Some? then updated.Answered? else created.Answered?) && refetch.Answered?) ==>
              r.open && r.form == data && r.toast.Error?
  {
    match deal
    case Some(d) =>
      var step := DealStore.UpdateDeal(store, d.id, SubmitBody(data), updated, refetch);
      if step.result.Resolved? then FormOutcome(step.state, step.requests, false, FormFor(deal), PipelinePage.Success("Deal updated successfully"))
      else FormOutcome(step.state, step.requests, true, data, PipelinePage.Error(ErrorMessage(step.result.serverError, "Failed to save deal")))
    case None =>
      var step := DealStore.CreateDeal(store, SubmitBody(data), created, refetch);
      match step.result
      case Resolved(_) => FormOutcome(step.state, step.requests, false, FormFor(deal), PipelinePage.Success("Deal created successfully"))
      case Rejected(e) => FormOutcome(step.state, step.requests, true, data, PipelinePage.Error(ErrorMessage(e, "Failed to save deal")))
  }
}
