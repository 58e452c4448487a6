/** The pipeline-stage repository (`repository/pipeline_stage_repository.go`)
    over the in-memory stage and deal tables. */
module StageRepo {
  import opened Wrappers
  import opened Seqs
  import opened Entities

  /** `FindByID`: the stage with this key, looked up inside the tenant. */
  function FindStage(stages: seq<Stage>, tenant: nat, id: nat): (r: Option<Stage>)
    ensures r.Some? <==> exists k :: 0 <= k < |stages| && stages[k].id == id && stages[k].tenantId == tenant
    ensures r.Some? ==> r.value in stages && r.value.id == id && r.value.tenantId == tenant
  {
    if |stages| == 0 then None
    else if stages[0].id == id && stages[0].tenantId == tenant then Some(stages[0])
    else
      var r := FindStage(stages[1..], tenant, id);
      assert forall k :: 1 <= k < |stages| ==> stages[k] == stages[1..][k - 1];
      r
  }

  /** The tenant's stages in storage order (`TenantScope`). */
  function StagesOf(stages: seq<Stage>, tenant: nat): (r: seq<Stage>)
    ensures forall s :: s in r <==> s in stages && s.tenantId == tenant
  {
    Filter(stages, (s: Stage) => s.tenantId == tenant)
  }

  /** `"order" ASC`. */
  function ByOrder(a: Stage, b: Stage): bool { a.order <= b.order }

  lemma ByOrderIsTotalPreorder()
    ensures TotalPreorder(ByOrder)
  {
  }

  /** `FindAll`: the tenant's stages sorted by display order. */
  function FindAllStages(stages: seq<Stage>, tenant: nat): (r: seq<Stage>)
    ensures multiset(r) == multiset(StagesOf(stages, tenant))
  {
    SortBy(StagesOf(stages, tenant), ByOrder)
  }

  /** `FindAll` returns exactly the tenant's stages, in ascending order. */
  lemma FindAllSortedByOrder(stages: seq<Stage>, tenant: nat)
    ensures Sorted(FindAllStages(stages, tenant), ByOrder)
    ensures forall s :: s in FindAllStages(stages, tenant) <==> s in stages && s.tenantId == tenant
  {
    ByOrderIsTotalPreorder();
    SortBySorted(StagesOf(stages, tenant), ByOrder);
    var r := FindAllStages(stages, tenant);
    forall s
      ensures s in r <==> s in StagesOf(stages, tenant)
    {
      assert s in r <==> s in multiset(r);
      assert s in StagesOf(stages, tenant) <==> s in multiset(StagesOf(stages, tenant));
    }
  }

  /** `CountByTenant`. */
  function CountStages(stages: seq<Stage>, tenant: nat): (n: nat)
    ensures n == |StagesOf(stages, tenant)|
    ensures n == 0 <==> forall s :: s in stages ==> s.tenantId != tenant
  {
    FilterEmptyIff(stages, (s: Stage) => s.tenantId == tenant);
    Count(stages, (s: Stage) => s.tenantId == tenant)
  }

  /** `Update`: keyed by id alone; struct `Updates` writes only the fields
      that are not zero in `patch`. */
  function ApplyStagePatch(current: Stage, patch: Stage): (s: Stage)
    ensures s.id == current.id
    ensures patch.tenantId != 0 ==> s.tenantId == patch.tenantId
    ensures patch.tenantId == 0 ==> s.tenantId == current.tenantId
    ensures patch.name != "" ==> s.name == patch.name
    ensures patch.name == "" ==> s.name == current.name
    ensures patch.order != 0 ==> s.order == patch.order
    ensures patch.order == 0 ==> s.order == current.order
    ensures patch.probability != 0 ==> s.probability == patch.probability
    ensures patch.probability == 0 ==> s.probability == current.probability
    ensures patch.color != "" ==> s.color == patch.color
    ensures patch.color == "" ==> s.color == current.color
    ensures patch.isDefault ==> s.isDefault
    ensures !patch.isDefault ==> s.isDefault == current.isDefault
    ensures patch.isClosedWon ==> s.isClosedWon
    ensures !patch.isClosedWon ==> s.isClosedWon == current.isClosedWon
    ensures patch.isClosedLost ==> s.isClosedLost
    ensures !patch.isClosedLost ==> s.isClosedLost == current.isClosedLost
  {
    current.(
      tenantId := NonZeroOr(patch.tenantId, 0, current.tenantId),
      name := NonZeroOr(patch.name, "", current.name),
      order := NonZeroOr(patch.order, 0, current.order),
      probability := NonZeroOr(patch.probability, 0, current.probability),
      color := NonZeroOr(patch.color, "", current.color),
      isDefault := NonZeroOr(patch.isDefault, false, current.isDefault),
      isClosedWon := NonZeroOr(patch.isClosedWon, false, current.isClosedWon),
      isClosedLost := NonZeroOr(patch.isClosedLost, false, current.isClosedLost))
  }

  function UpdateStageRow(stages: seq<Stage>, patch: Stage): (r: seq<Stage>)
    ensures |r| == |stages|
    ensures forall k :: 0 <= k < |stages| ==>
              r[k] == if stages[k].id == patch.id then ApplyStagePatch(stages[k], patch) else stages[k]
  {
    if |stages| == 0 then []
    else
      [if stages[0].id == patch.id then ApplyStagePatch(stages[0], patch) else stages[0]]
      + UpdateStageRow(stages[1..], patch)
  }

  /** `Delete`: removes the tenant's row with this key. */
  function DeleteStageRow(stages: seq<Stage>, tenant: nat, id: nat): (r: seq<Stage>)
    ensures forall s :: s in r <==> s in stages && !(s.id == id && s.tenantId == tenant)
  {
    Filter(stages, (s: Stage) => !(s.id == id && s.tenantId == tenant))
  }

  /** `CountDealsByStage`. */
  function CountDealsByStage(deals: seq<Deal>, tenant: nat, stageId: nat): (n: nat)
    ensures n == |Filter(deals, (d: Deal) => d.tenantId == tenant && d.stageId == stageId)|
  {
    Count(deals, (d: Deal) => d.tenantId == tenant && d.stageId == stageId)
  }

  /** Exactly the deals of that tenant and stage are counted: none means
      no such deal exists. */
  lemma CountDealsByStageZero(deals: seq<Deal>, tenant: nat, stageId: nat)
    ensures CountDealsByStage(deals, tenant, stageId) == 0
            <==> forall d :: d in deals ==> !(d.tenantId == tenant && d.stageId == stageId)
  {
    FilterEmptyIff(deals, (d: Deal) => d.tenantId == tenant && d.stageId == stageId);
  }

  // ---------------------------------------------------------------------
  // Default stages
  // ---------------------------------------------------------------------

  /** The six stages every tenant starts with, given the first free key. */
  function DefaultStages(tenant: nat, firstId: nat): (r: seq<Stage>)
    ensures |r| == 6
    ensures forall k :: 0 <= k < 6 ==> r[k].id == firstId + k && r[k].tenantId == tenant && r[k].isDefault
  {
    [
      Stage(firstId, tenant, "Lead", 1, 10, "#3B82F6", true, false, false),
      Stage(firstId + 1, tenant, "Qualified", 2, 25, "#06B6D4", true, false, false),
      Stage(firstId + 2, tenant, "Proposal", 3, 50, "#EAB308", true, false, false),
      Stage(firstId + 3, tenant, "Negotiation", 4, 75, "#F97316", true, false, false),
      Stage(firstId + 4, tenant, "Closed Won", 5, 100, "#10B981", true, true, false),
      Stage(firstId + 5, tenant, "Closed Lost", 6, 0, "#EF4444", true, false, true)
    ]
  }

  /** Orders run 1..6, probabilities are 10, 25, 50, 75, 100, 0, and only
      order 5 is closed-won and only order 6 closed-lost. */
  lemma DefaultStagesShape(tenant: nat, firstId: nat)
    ensures var r := DefaultStages(tenant, firstId);
            && (forall k :: 0 <= k < 6 ==> r[k].order == k + 1)
            && [r[0].probability, r[1].probability, r[2].probability,
                r[3].probability, r[4].probability, r[5].probability] == [10, 25, 50, 75, 100, 0]
            && (forall k :: 0 <= k < 6 ==> (r[k].isClosedWon <==> r[k].order == 5))
            && (forall k :: 0 <= k < 6 ==> (r[k].isClosedLost <==> r[k].order == 6))
            && Sorted(r, ByOrder)
  {
  }

  /** `CreateDefaultStages`: one insert of the six rows with fresh keys. */
  function CreateDefaultStages(db: Db, tenant: nat): (db': Db)
    ensures db'.stages == db.stages + DefaultStages(tenant, db.nextId)
    ensures db'.nextId == db.nextId + 6
    ensures db' == db.(stages := db'.stages, nextId := db'.nextId)
  {
    db.(stages := db.stages + DefaultStages(tenant, db.nextId), nextId := db.nextId + 6)
  }

  // ---------------------------------------------------------------------
  // Reorder
  // ---------------------------------------------------------------------

  /** The position of the last occurrence of `x` in `s`. */
  function LastIndex(s: seq<nat>, x: nat): (i: nat)
    requires x in s
    ensures i < |s| && s[i] == x
    ensures forall j :: i < j < |s| ==> s[j] != x
  {
    if s[|s| - 1] == x then |s| - 1 else LastIndex(s[..|s| - 1], x)
  }

  /** A database failure on the `step`-th update of the transaction. */
  datatype DbFailure = DbFailure(step: nat, msg: string)

  /** One `UPDATE ... SET order = n WHERE tenant_id = ? AND id = ?`. */
  function SetOrder(stages: seq<Stage>, tenant: nat, id: nat, n: int): (r: seq<Stage>)
    ensures |r| == |stages|
    ensures forall k :: 0 <= k < |stages| ==>
              r[k] == if stages[k].tenantId == tenant && stages[k].id == id then stages[k].(order := n) else stages[k]
  {
    if |stages| == 0 then []
    else
      [if stages[0].tenantId == tenant && stages[0].id == id then stages[0].(order := n) else stages[0]]
      + SetOrder(stages[1..], tenant, id, n)
  }

  /** What `Reorder` leaves in a row after updating `ids[..n]`: a listed
      stage of the tenant gets 1 + the position of its last listing. */
  function ReorderedRow(s: Stage, tenant: nat, ids: seq<nat>): Stage
  {
    if s.tenantId == tenant && s.id in ids then s.(order := LastIndex(ids, s.id) + 1) else s
  }

  /** `Reorder`: the transaction sets `order = i+1` on stage `ids[i]` of the
      tenant, one id after the other; a failure rolls every update back. */
  method Reorder(stages: seq<Stage>, tenant: nat, ids: seq<nat>, failure: Option<DbFailure>)
    returns (r: Result<seq<Stage>>)
    ensures failure.Some? && failure.value.step < |ids| ==> r == Err(failure.value.msg)
    ensures failure.None? || failure.value.step >= |ids| ==>
              r.Ok? && |r.value| == |stages|
              && forall k :: 0 <= k < |stages| ==> r.value[k] == ReorderedRow(stages[k], tenant, ids)
  {
    var cur := stages;
    var i := 0;
    while i < |ids|
      invariant 0 <= i <= |ids|
      invariant |cur| == |stages|
      invariant failure.Some? ==> failure.value.step >= i
      invariant forall k :: 0 <= k < |stages| ==> cur[k] == ReorderedRow(stages[k], tenant, ids[..i])
    {
      if failure.Some? && failure.value.step == i {
        return Err(failure.value.msg);
      }
      var next := SetOrder(cur, tenant, ids[i], i + 1);
      forall k | 0 <= k < |stages|
        ensures next[k] == ReorderedRow(stages[k], tenant, ids[..i + 1])
      {
        var s := stages[k];
        assert ids[..i + 1] == ids[..i] + [ids[i]];
        if s.tenantId == tenant && s.id == ids[i] {
          assert LastIndex(ids[..i + 1], s.id) == i;
        } else if s.tenantId == tenant && s.id in ids[..i] {
          assert LastIndex(ids[..i + 1], s.id) == LastIndex(ids[..i], s.id) by {
            assert ids[..i + 1][..i] == ids[..i];
          }
        }
      }
      cur := next;
      i := i + 1;
    }
    assert ids[..i] == ids;
    return Ok(cur);
  }

  /** With distinct ids, the stage listed at position `i` ends with order
      `i + 1`; stages of other tenants are untouched. */
  lemma ReorderedPositions(s: Stage, tenant: nat, ids: seq<nat>, i: nat)
    requires forall a, b :: 0 <= a < b < |ids| ==> ids[a] != ids[b]
    requires i < |ids| && s.id == ids[i] && s.tenantId == tenant
    ensures ReorderedRow(s, tenant, ids).order == i + 1
  {
  }

  lemma ReorderKeepsOtherTenants(s: Stage, tenant: nat, ids: seq<nat>)
    requires s.tenantId != tenant
    ensures ReorderedRow(s, tenant, ids) == s
  {
  }
}
