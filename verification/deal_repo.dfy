/** The deal repository (`repository/deal_repository.go`) over the in-memory
    deal table. */
module DealRepo {
  import opened Wrappers
  import opened Seqs
  import opened Text
  import opened Entities

  /** A date bound as the query carries it: the handler passes the text
      through, and PostgreSQL either reads it as a day number or refuses
      it. */
  datatype DateBound = Day(day: int) | Unreadable(text: string)

  /** `repository.DealFilter`.  Unset (nil) filters are `None`; money is
      an integer amount. */
  datatype DealFilter = DealFilter(
    stageId: Option<nat>, status: string, contactId: Option<nat>,
    minValue: Option<int>, maxValue: Option<int>,
    closeStart: Option<DateBound>, closeEnd: Option<DateBound>,
    search: string, sortBy: string, sortOrder: string,
    limit: int, offset: int)

  const NoFilter := DealFilter(None, "", None, None, None, None, None, "", "", "", 0, 0)

  /** `FindByID`: the deal with this key, looked up inside the tenant. */
  function FindDeal(deals: seq<Deal>, tenant: nat, id: nat): (r: Option<Deal>)
    ensures r.Some? <==> exists k :: 0 <= k < |deals| && deals[k].id == id && deals[k].tenantId == tenant
    ensures r.Some? ==> r.value in deals && r.value.id == id && r.value.tenantId == tenant
  {
    if |deals| == 0 then None
    else if deals[0].id == id && deals[0].tenantId == tenant then Some(deals[0])
    else
      var r := FindDeal(deals[1..], tenant, id);
      assert forall k :: 1 <= k < |deals| ==> deals[k] == deals[1..][k - 1];
      r
  }

  // ---------------------------------------------------------------------
  // The WHERE clause shared by FindAll and Count
  // ---------------------------------------------------------------------

  /** Each clause applies only when its filter is set.  Value bounds are
      inclusive; a date bound excludes deals without a date (SQL `NULL`
      compares false), and an unreadable one fails the whole query
      (`DatesReadable`); the search is a case-insensitive substring of the
      title or the description. */
  predicate Matches(f: DealFilter, d: Deal)
  {
    && (f.stageId.Some? ==> d.stageId == f.stageId.value)
    && (f.status != "" ==> d.status == f.status)
    && (f.contactId.Some? ==> d.contactId == f.contactId.value)
    && (f.minValue.Some? ==> d.value >= f.minValue.value)
    && (f.maxValue.Some? ==> d.value <= f.maxValue.value)
    && (f.closeStart.Some? ==> && f.closeStart.value.Day? && d.expectedCloseDate.Some?
                                && d.expectedCloseDate.value >= f.closeStart.value.day)
    && (f.closeEnd.Some? ==> && f.closeEnd.value.Day? && d.expectedCloseDate.Some?
                              && d.expectedCloseDate.value <= f.closeEnd.value.day)
    && (f.search != "" ==> ContainsFold(d.title, f.search) || ContainsFold(d.description, f.search))
  }

  /** Every date bound the filter sets is text PostgreSQL reads as a day. */
  predicate DatesReadable(f: DealFilter)
  {
    && (f.closeStart.Some? ==> f.closeStart.value.Day?)
    && (f.closeEnd.Some? ==> f.closeEnd.value.Day?)
  }

  /** The rows both queries select: the tenant's deals that match. */
  function Selected(deals: seq<Deal>, tenant: nat, f: DealFilter): (r: seq<Deal>)
    ensures forall d :: d in r <==> d in deals && d.tenantId == tenant && Matches(f, d)
  {
    Filter(deals, (d: Deal) => d.tenantId == tenant && Matches(f, d))
  }

  /** With nothing set, the filter keeps every deal. */
  lemma UnsetFiltersKeepAll(f: DealFilter, d: Deal)
    requires f.stageId.None? && f.status == "" && f.contactId.None?
    requires f.minValue.None? && f.maxValue.None? && f.closeStart.None? && f.closeEnd.None?
    requires f.search == ""
    ensures Matches(f, d)
  {
  }

  /** The value range is a closed interval: both ends are inside. */
  lemma ValueBoundsInclusive(f: DealFilter, d: Deal)
    requires f == NoFilter.(minValue := Some(d.value), maxValue := Some(d.value))
    ensures Matches(f, d)
  {
  }

  /** The search finds a deal by its title whatever the letter case. */
  lemma SearchIgnoresCase(f: DealFilter, d: Deal)
    requires f == NoFilter.(search := d.title) && d.title != ""
    ensures Matches(f, d)
    ensures Matches(f.(search := Lower(d.title)), d)
  {
    ContainsItself(Lower(d.title));
    LowerIdempotent(d.title);
  }

  // ---------------------------------------------------------------------
  // ORDER BY
  // ---------------------------------------------------------------------

  /** The `ORDER BY` clause: `sort_by` with `DESC` exactly when the order is
      "desc"; no column means newest first. */
  datatype OrderClause = OrderClause(column: string, descending: bool)

  function OrderOf(f: DealFilter): (o: OrderClause)
    ensures f.sortBy == "" ==> o == OrderClause("created_at", true)
    ensures f.sortBy != "" ==> o.column == f.sortBy && (o.descending <==> f.sortOrder == "desc")
  {
    if f.sortBy != "" then OrderClause(f.sortBy, f.sortOrder == "desc")
    else OrderClause("created_at", true)
  }

  /** The columns of the `deals` table, any of which `sort_by` may name.
      `ByHidden` stands for the columns the model's deal does not carry
      (`updated_at`, `deleted_at`, `stage_order`, `actual_close_date`,
      `loss_reason`, `tags`): ordering by one of them is accepted, and the
      order it gives is not constrained by the model. */
  datatype SortColumn =
    | ById | ByTenant | ByCreatedBy | ByContact | ByStage | ByValue | ByProbability | ByCreatedAt
    | ByCloseDate
    | ByTitle | ByDescription | ByCurrency | ByStatus | BySource | ByNotes
    | ByHidden

  /** The table's column names and the column each one orders by. */
  const Columns: map<string, SortColumn> := map[
    "id" := ById, "tenant_id" := ByTenant, "created_by" := ByCreatedBy, "contact_id" := ByContact,
    "stage_id" := ByStage, "value" := ByValue, "probability" := ByProbability, "created_at" := ByCreatedAt,
    "expected_close_date" := ByCloseDate,
    "title" := ByTitle, "description" := ByDescription, "currency" := ByCurrency, "status" := ByStatus,
    "source" := BySource, "notes" := ByNotes,
    "updated_at" := ByHidden, "deleted_at" := ByHidden, "stage_order" := ByHidden,
    "actual_close_date" := ByHidden, "loss_reason" := ByHidden, "tags" := ByHidden]

  /** The name of the column each order reads (for the hidden columns, one
      of them). */
  function ColumnName(c: SortColumn): (name: string)
    ensures name in Columns && Columns[name] == c
  {
    match c
    case ById => "id"
    case ByTenant => "tenant_id"
    case ByCreatedBy => "created_by"
    case ByContact => "contact_id"
    case ByStage => "stage_id"
    case ByValue => "value"
    case ByProbability => "probability"
    case ByCreatedAt => "created_at"
    case ByCloseDate => "expected_close_date"
    case ByTitle => "title"
    case ByDescription => "description"
    case ByCurrency => "currency"
    case ByStatus => "status"
    case BySource => "source"
    case ByNotes => "notes"
    case ByHidden => "updated_at"
  }

  const UnknownColumn := "unknown sort column"
  /** Stands for PostgreSQL's refusal of a date bound (its exact text is
      not modelled). */
  const UnreadableDate := "invalid input syntax for type date"

  /** The column `sort_by` names; a name that is not a column of the table
      is `None`, which the database refuses. */
  function ParseColumn(name: string): (c: Option<SortColumn>)
    ensures c.Some? <==> name in Columns
    ensures c.Some? ==> ColumnName(c.value) in Columns && Columns[ColumnName(c.value)] == c.value
  {
    if name in Columns then Some(Columns[name]) else None
  }

  /** Every column is found under its own name. */
  lemma ParseColumnName(c: SortColumn)
    ensures ParseColumn(ColumnName(c)) == Some(c)
  {
  }

  predicate IsTextColumn(c: SortColumn)
  {
    c.ByTitle? || c.ByDescription? || c.ByCurrency? || c.ByStatus? || c.BySource? || c.ByNotes?
  }

  function NumericKey(c: SortColumn, d: Deal): int
  {
    match c
    case ById => d.id
    case ByTenant => d.tenantId
    case ByCreatedBy => d.createdBy
    case ByContact => d.contactId
    case ByStage => d.stageId
    case ByValue => d.value
    case ByProbability => d.probability
    case ByCreatedAt => d.createdAt
    case _ => 0
  }

  function TextKey(c: SortColumn, d: Deal): string
  {
    match c
    case ByTitle => d.title
    case ByDescription => d.description
    case ByCurrency => d.currency
    case ByStatus => d.status
    case BySource => d.source
    case ByNotes => d.notes
    case _ => ""
  }

  /** PostgreSQL's ascending order on a nullable column: `NULL` sorts after
      every value (and first when descending, the reverse). */
  predicate NullsLastLe(a: Option<int>, b: Option<int>)
  {
    b.None? || (a.Some? && a.value <= b.value)
  }

  /** Ascending order on one column. */
  predicate Ascending(c: SortColumn, a: Deal, b: Deal)
  {
    if c == ByHidden then true
    else if c == ByCloseDate then NullsLastLe(a.expectedCloseDate, b.expectedCloseDate)
    else if IsTextColumn(c) then LexLe(TextKey(c, a), TextKey(c, b))
    else NumericKey(c, a) <= NumericKey(c, b)
  }

  /** `a` may come before `b` under the clause. */
  predicate Before(c: SortColumn, descending: bool, a: Deal, b: Deal)
  {
    if descending then Ascending(c, b, a) else Ascending(c, a, b)
  }

  /** Deals without an expected close date come last in ascending order
      and first in descending order. */
  lemma UndatedDealsLastAscending(a: Deal, b: Deal)
    requires a.expectedCloseDate.Some? && b.expectedCloseDate.None?
    ensures Before(ByCloseDate, false, a, b) && !Before(ByCloseDate, false, b, a)
    ensures Before(ByCloseDate, true, b, a) && !Before(ByCloseDate, true, a, b)
  {
  }

  lemma BeforeIsTotalPreorder(c: SortColumn, descending: bool)
    ensures TotalPreorder((a, b) => Before(c, descending, a, b))
  {
    forall a: Deal, b: Deal
      ensures Ascending(c, a, b) || Ascending(c, b, a)
    {
      LexLeTotal(TextKey(c, a), TextKey(c, b));
    }
    forall a: Deal, b: Deal, d: Deal | Ascending(c, a, b) && Ascending(c, b, d)
      ensures Ascending(c, a, d)
    {
      if IsTextColumn(c) {
        LexLeTransitive(TextKey(c, a), TextKey(c, b), TextKey(c, d));
      }
    }
  }

  /** The selection in the clause's order: the reference the page is cut
      from. */
  function SortedSelection(deals: seq<Deal>, tenant: nat, f: DealFilter, c: SortColumn): (s: seq<Deal>)
    ensures multiset(s) == multiset(Selected(deals, tenant, f))
    ensures Sorted(s, (a, b) => Before(c, OrderOf(f).descending, a, b))
  {
    var le := (a, b) => Before(c, OrderOf(f).descending, a, b);
    BeforeIsTotalPreorder(c, OrderOf(f).descending);
    SortBySorted(Selected(deals, tenant, f), le);
    SortBy(Selected(deals, tenant, f), le)
  }

  // ---------------------------------------------------------------------
  // FindAll and Count
  // ---------------------------------------------------------------------

  /** `FindAll`: the matching deals of the tenant, ordered by the clause,
      then `OFFSET`/`LIMIT` when positive.  Ordering by a name that is not
      a column is a database error, found when the statement is prepared;
      a date bound the database cannot read fails it when it runs. */
  function FindAllDeals(deals: seq<Deal>, tenant: nat, f: DealFilter): (r: Result<seq<Deal>>)
    ensures r.Ok? <==> OrderOf(f).column in Columns && DatesReadable(f)
    ensures r.Err? ==> r.msg == if OrderOf(f).column in Columns then UnreadableDate else UnknownColumn
    ensures r.Ok? ==> forall d :: d in r.value ==> d in deals && d.tenantId == tenant && Matches(f, d)
    ensures r.Ok? ==> Sorted(r.value, (a, b) => Before(ParseColumn(OrderOf(f).column).value, OrderOf(f).descending, a, b))
    ensures r.Ok? ==> |r.value| <= CountDeals(deals, tenant, f)
    ensures r.Ok? && f.limit > 0 ==> |r.value| <= f.limit
    ensures r.Ok? && f.limit <= 0 && f.offset <= 0 ==> multiset(r.value) == multiset(Selected(deals, tenant, f))
  {
    var o := OrderOf(f);
    match ParseColumn(o.column)
    case None => Err(UnknownColumn)
    case Some(c) =>
      if !DatesReadable(f) then Err(UnreadableDate)
      else
        var le := (a, b) => Before(c, o.descending, a, b);
        var sorted := SortedSelection(deals, tenant, f, c);
        WindowKeepsSorted(sorted, f.offset, f.limit, le);
        var rows := Window(sorted, f.offset, f.limit);
        assert forall d :: d in rows ==> d in multiset(sorted);
        Ok(rows)
  }

  /** The page is the run of the ordered selection that starts at the
      offset and is as long as the limit allows. */
  lemma FindAllDealsWindow(deals: seq<Deal>, tenant: nat, f: DealFilter)
    requires FindAllDeals(deals, tenant, f).Ok?
    ensures IsWindow(FindAllDeals(deals, tenant, f).value,
                     SortedSelection(deals, tenant, f, ParseColumn(OrderOf(f).column).value), f.offset, f.limit)
  {
    FindAllDealsIsWindow(deals, tenant, f);
    WindowIsWindow(SortedSelection(deals, tenant, f, ParseColumn(OrderOf(f).column).value), f.offset, f.limit);
  }

  lemma FindAllDealsIsWindow(deals: seq<Deal>, tenant: nat, f: DealFilter)
    requires FindAllDeals(deals, tenant, f).Ok?
    ensures FindAllDeals(deals, tenant, f).value
            == Window(SortedSelection(deals, tenant, f, ParseColumn(OrderOf(f).column).value), f.offset, f.limit)
  {
  }

  /** `Count`: the same clause without ordering or pagination. */
  function CountDeals(deals: seq<Deal>, tenant: nat, f: DealFilter): (n: nat)
    ensures n == |Selected(deals, tenant, f)|
    ensures n <= |deals|
  {
    Count(deals, (d: Deal) => d.tenantId == tenant && Matches(f, d))
  }

  /** Sorting, limit and offset do not change what `Count` reports. */
  lemma CountIgnoresPaging(deals: seq<Deal>, tenant: nat, f: DealFilter, sortBy: string, sortOrder: string, limit: int, offset: int)
    ensures CountDeals(deals, tenant, f) == CountDeals(deals, tenant, f.(sortBy := sortBy, sortOrder := sortOrder, limit := limit, offset := offset))
  {
    var g := f.(sortBy := sortBy, sortOrder := sortOrder, limit := limit, offset := offset);
    FilterCongruent(deals, (d: Deal) => d.tenantId == tenant && Matches(f, d), (d: Deal) => d.tenantId == tenant && Matches(g, d));
  }

  // ---------------------------------------------------------------------
  // Writes
  // ---------------------------------------------------------------------

  /** GORM struct `Updates` of a deal: only the non-zero fields of `patch`
      are written; the key never changes. */
  function ApplyDealPatch(current: Deal, patch: Deal): (d: Deal)
    ensures d.id == current.id
    ensures patch.tenantId == 0 ==> d.tenantId == current.tenantId
    ensures patch.createdBy == 0 ==> d.createdBy == current.createdBy
    ensures patch.probability != 0 ==> d.probability == patch.probability
    ensures patch.probability == 0 ==> d.probability == current.probability
    ensures patch.stageId != 0 ==> d.stageId == patch.stageId
    ensures patch.title != "" ==> d.title == patch.title
    ensures patch.title == "" ==> d.title == current.title
  {
    current.(
      tenantId := NonZeroOr(patch.tenantId, 0, current.tenantId),
      createdBy := NonZeroOr(patch.createdBy, 0, current.createdBy),
      contactId := NonZeroOr(patch.contactId, 0, current.contactId),
      title := NonZeroOr(patch.title, "", current.title),
      description := NonZeroOr(patch.description, "", current.description),
      value := NonZeroOr(patch.value, 0, current.value),
      currency := NonZeroOr(patch.currency, "", current.currency),
      stageId := NonZeroOr(patch.stageId, 0, current.stageId),
      probability := NonZeroOr(patch.probability, 0, current.probability),
      expectedCloseDate := NonZeroOr(patch.expectedCloseDate, None, current.expectedCloseDate),
      status := NonZeroOr(patch.status, "", current.status),
      source := NonZeroOr(patch.source, "", current.source),
      notes := NonZeroOr(patch.notes, "", current.notes),
      createdAt := NonZeroOr(patch.createdAt, 0, current.createdAt))
  }

  /** `Update`: the tenant and creator of the patch are zeroed first, then
      the row with the patch's key receives the non-zero fields. */
  function UpdateDealRows(deals: seq<Deal>, patch: Deal): (r: seq<Deal>)
    ensures |r| == |deals|
    ensures forall k :: 0 <= k < |deals| ==> r[k].id == deals[k].id
    ensures forall k :: 0 <= k < |deals| ==>
              r[k].tenantId == deals[k].tenantId && r[k].createdBy == deals[k].createdBy
    ensures forall k :: 0 <= k < |deals| && deals[k].id != patch.id ==> r[k] == deals[k]
    ensures forall k :: 0 <= k < |deals| && deals[k].id == patch.id ==>
              r[k] == ApplyDealPatch(deals[k], patch.(tenantId := 0, createdBy := 0))
  {
    var p := patch.(tenantId := 0, createdBy := 0);
    if |deals| == 0 then []
    else [if deals[0].id == p.id then ApplyDealPatch(deals[0], p) else deals[0]] + UpdateDealRows(deals[1..], patch)
  }

  /** Writes `f` to the tenant's row with key `id` and leaves every other
      row as it is: the shape of `UpdateFields`, `MoveToStage` and
      `UpdateStatus`, which are all scoped by tenant and key. */
  function MapRow(deals: seq<Deal>, tenant: nat, id: nat, f: Deal -> Deal): (r: seq<Deal>)
    ensures |r| == |deals|
    ensures forall k :: 0 <= k < |deals| ==>
              r[k] == if deals[k].id == id && deals[k].tenantId == tenant then f(deals[k]) else deals[k]
  {
    if |deals| == 0 then []
    else [if deals[0].id == id && deals[0].tenantId == tenant then f(deals[0]) else deals[0]]
         + MapRow(deals[1..], tenant, id, f)
  }

  /** `MoveToStage`: exactly the `stage_id` column of one tenant-scoped
      deal. */
  function MoveDealRow(deals: seq<Deal>, tenant: nat, id: nat, stageId: nat): (r: seq<Deal>)
    ensures |r| == |deals|
    ensures forall k :: 0 <= k < |deals| && deals[k].id == id && deals[k].tenantId == tenant ==>
              r[k] == deals[k].(stageId := stageId)
    ensures forall k :: 0 <= k < |deals| && !(deals[k].id == id && deals[k].tenantId == tenant) ==> r[k] == deals[k]
  {
    MapRow(deals, tenant, id, (d: Deal) => d.(stageId := stageId))
  }

  /** `UpdateStatus`: exactly the `status` column of one tenant-scoped
      deal. */
  function SetStatusRow(deals: seq<Deal>, tenant: nat, id: nat, status: string): (r: seq<Deal>)
    ensures |r| == |deals|
    ensures forall k :: 0 <= k < |deals| && deals[k].id == id && deals[k].tenantId == tenant ==>
              r[k] == deals[k].(status := status)
    ensures forall k :: 0 <= k < |deals| && !(deals[k].id == id && deals[k].tenantId == tenant) ==> r[k] == deals[k]
  {
    MapRow(deals, tenant, id, (d: Deal) => d.(status := status))
  }

  /** `Delete`: removes the row with this key. */
  function DeleteDealRow(deals: seq<Deal>, id: nat): (r: seq<Deal>)
    ensures forall d :: d in r <==> d in deals && d.id != id
  {
    Filter(deals, (d: Deal) => d.id != id)
  }

  // ---------------------------------------------------------------------
  // GetTotalValueByStage
  // ---------------------------------------------------------------------

  predicate ActiveIn(d: Deal, tenant: nat, stageId: nat)
  {
    d.tenantId == tenant && d.status == "active" && d.stageId == stageId
  }

  function Values(ds: seq<Deal>): (vs: seq<int>)
    ensures |vs| == |ds|
    ensures forall k :: 0 <= k < |ds| ==> vs[k] == ds[k].value
  {
    if |ds| == 0 then [] else [ds[0].value] + Values(ds[1..])
  }

  /** `SUM(value) … WHERE status = 'active' AND stage_id = s` for one stage:
      the reference each entry of the grouped result is checked against. */
  function StageTotal(deals: seq<Deal>, tenant: nat, stageId: nat): int
  {
    Sum(Values(Filter(deals, (d: Deal) => ActiveIn(d, tenant, stageId))))
  }

  /** `GetTotalValueByStage`: one entry per stage holding an active deal of
      the tenant, mapped to the sum of those deals' values. */
  function TotalValueByStage(deals: seq<Deal>, tenant: nat): (m: map<nat, int>)
    ensures forall s :: s in m <==> exists k :: 0 <= k < |deals| && ActiveIn(deals[k], tenant, s)
    ensures forall s :: s in m ==> m[s] == StageTotal(deals, tenant, s)
    decreases |deals|
  {
    if |deals| == 0 then map[]
    else
      var rest := TotalValueByStage(deals[1..], tenant);
      ByStageStep(deals, tenant, rest);
      AddActive(rest, deals[0], tenant)
  }

  /** One deal folded into the grouped sums. */
  function AddActive(m: map<nat, int>, d: Deal, tenant: nat): map<nat, int>
  {
    if d.tenantId == tenant && d.status == "active" then
      m[d.stageId := (if d.stageId in m then m[d.stageId] else 0) + d.value]
    else m
  }

  /** Folding the first deal into the sums of the others gives the sums of
      all of them. */
  lemma {:induction false} ByStageStep(deals: seq<Deal>, tenant: nat, rest: map<nat, int>)
    requires |deals| > 0
    requires forall s :: s in rest <==> exists k :: 0 <= k < |deals[1..]| && ActiveIn(deals[1..][k], tenant, s)
    requires forall s :: s in rest ==> rest[s] == StageTotal(deals[1..], tenant, s)
    ensures var m := AddActive(rest, deals[0], tenant);
            && (forall s :: s in m <==> exists k :: 0 <= k < |deals| && ActiveIn(deals[k], tenant, s))
            && (forall s :: s in m ==> m[s] == StageTotal(deals, tenant, s))
  {
    var m := AddActive(rest, deals[0], tenant);
    forall s
      ensures s in m <==> exists k :: 0 <= k < |deals| && ActiveIn(deals[k], tenant, s)
    {
      if exists k :: 0 <= k < |deals| && ActiveIn(deals[k], tenant, s) {
        var k :| 0 <= k < |deals| && ActiveIn(deals[k], tenant, s);
        if k > 0 {
          assert deals[1..][k - 1] == deals[k];
        }
      }
      if s in rest {
        var k :| 0 <= k < |deals[1..]| && ActiveIn(deals[1..][k], tenant, s);
        assert deals[k + 1] == deals[1..][k];
      }
    }
    forall s | s in m
      ensures m[s] == StageTotal(deals, tenant, s)
    {
      StageTotalStep(deals, tenant, s);
      if s !in rest {
        forall k | 0 <= k < |deals[1..]| ensures !ActiveIn(deals[1..][k], tenant, s) { }
        NoActiveMeansZero(deals[1..], tenant, s);
      }
    }
  }

  lemma StageTotalStep(deals: seq<Deal>, tenant: nat, s: nat)
    requires |deals| > 0
    ensures StageTotal(deals, tenant, s)
            == (if ActiveIn(deals[0], tenant, s) then deals[0].value else 0) + StageTotal(deals[1..], tenant, s)
  {
    var p := (d: Deal) => ActiveIn(d, tenant, s);
    if p(deals[0]) {
      assert Filter(deals, p) == [deals[0]] + Filter(deals[1..], p);
      assert Values([deals[0]] + Filter(deals[1..], p)) == [deals[0].value] + Values(Filter(deals[1..], p));
    }
  }

  lemma NoActiveMeansZero(deals: seq<Deal>, tenant: nat, s: nat)
    requires forall k :: 0 <= k < |deals| ==> !ActiveIn(deals[k], tenant, s)
    ensures StageTotal(deals, tenant, s) == 0
  {
    FilterNone(deals, (d: Deal) => ActiveIn(d, tenant, s));
  }
}
