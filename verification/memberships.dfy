/** Tenant memberships (`repository/tenant_user_repository.go`): which user
    belongs to which tenant, and with which role. */
module Memberships {
  import opened Wrappers
  import opened Seqs
  import opened Entities
  import opened Scopes

  /** The `tenant_id = ? AND user_id = ?` clause. */
  predicate IsPair(m: Membership, tenant: nat, user: nat)
  {
    m.tenantId == tenant && m.userId == user
  }

  /** `FindByTenantAndUser`: a membership of the pair, if there is one. */
  function FindByTenantAndUser(ms: seq<Membership>, tenant: nat, user: nat): (r: Option<Membership>)
    ensures r.Some? <==> exists k :: 0 <= k < |ms| && IsPair(ms[k], tenant, user)
    ensures r.Some? ==> r.value in ms && IsPair(r.value, tenant, user)
  {
    if |ms| == 0 then None
    else if IsPair(ms[0], tenant, user) then Some(ms[0])
    else
      var r := FindByTenantAndUser(ms[1..], tenant, user);
      assert forall k :: 1 <= k < |ms| ==> ms[k] == ms[1..][k - 1];
      r
  }

  /** `CheckUserAccess`: the number of memberships of the pair is positive. */
  function CheckUserAccess(ms: seq<Membership>, tenant: nat, user: nat): (ok: bool)
    ensures ok <==> exists m :: m in ms && IsPair(m, tenant, user)
  {
    var matching := Filter(ms, (m: Membership) => IsPair(m, tenant, user));
    if Count(ms, (m: Membership) => IsPair(m, tenant, user)) > 0 then
      assert matching[0] in matching;
      true
    else
      false
  }

  /** The access check and the lookup agree. */
  lemma AccessIffFound(ms: seq<Membership>, tenant: nat, user: nat)
    ensures CheckUserAccess(ms, tenant, user) <==> FindByTenantAndUser(ms, tenant, user).Some?
  {
    if FindByTenantAndUser(ms, tenant, user).Some? {
      assert FindByTenantAndUser(ms, tenant, user).value in ms;
    }
  }

  /** `FindUsersByTenant`: one page of the tenant's memberships in storage
      order, with the tenant's whole count. */
  function FindUsersByTenant(ms: seq<Membership>, tenant: nat, page: int, pageSize: int): (r: (seq<Membership>, nat))
    ensures r.1 == Count(ms, (m: Membership) => m.tenantId == tenant)
    ensures |r.0| <= r.1 && |r.0| <= ClampPageSize(pageSize)
    ensures forall m :: m in r.0 ==> m in ms && m.tenantId == tenant
  {
    var all := Filter(ms, (m: Membership) => m.tenantId == tenant);
    var rows := ApplyPage(all, Paginate(page, pageSize));
    assert forall k :: 0 <= k < |rows| ==> rows[k] in all;
    (rows, |all|)
  }

  /** Every page reports the same total, whatever page is asked for. */
  lemma TotalIgnoresPaging(ms: seq<Membership>, tenant: nat, p1: int, s1: int, p2: int, s2: int)
    ensures FindUsersByTenant(ms, tenant, p1, s1).1 == FindUsersByTenant(ms, tenant, p2, s2).1
  {
  }

  /** `FindTenantsByUser`: the user's memberships, in storage order. */
  function FindTenantsByUser(ms: seq<Membership>, user: nat): (r: seq<Membership>)
    ensures forall m :: m in r <==> m in ms && m.userId == user
  {
    Filter(ms, (m: Membership) => m.userId == user)
  }

  /** `UpdateRole`: the role of the pair's memberships becomes `role`;
      every other membership, and every other column, is unchanged. */
  function UpdateRole(ms: seq<Membership>, tenant: nat, user: nat, role: string): (r: seq<Membership>)
    ensures |r| == |ms|
    ensures forall k :: 0 <= k < |ms| && IsPair(ms[k], tenant, user) ==> r[k] == ms[k].(role := role)
    ensures forall k :: 0 <= k < |ms| && !IsPair(ms[k], tenant, user) ==> r[k] == ms[k]
  {
    if |ms| == 0 then []
    else [if IsPair(ms[0], tenant, user) then ms[0].(role := role) else ms[0]]
         + UpdateRole(ms[1..], tenant, user, role)
  }

  /** After `UpdateRole` the pair's membership carries the new role, and
      the lookup of every other pair is unaffected. */
  lemma {:induction false} UpdateRoleReadsBack(ms: seq<Membership>, tenant: nat, user: nat, role: string,
                                              t: nat, u: nat)
    ensures var r := UpdateRole(ms, tenant, user, role);
            && (t == tenant && u == user && FindByTenantAndUser(ms, t, u).Some? ==>
                  FindByTenantAndUser(r, t, u) == Some(FindByTenantAndUser(ms, t, u).value.(role := role)))
            && (!(t == tenant && u == user) ==> FindByTenantAndUser(r, t, u) == FindByTenantAndUser(ms, t, u))
    decreases |ms|
  {
    if |ms| > 0 {
      var r := UpdateRole(ms, tenant, user, role);
      UpdateRoleReadsBack(ms[1..], tenant, user, role, t, u);
      assert r[1..] == UpdateRole(ms[1..], tenant, user, role);
    }
  }

  /** `Delete`: the pair's memberships are removed, nothing else. */
  function DeleteMembership(ms: seq<Membership>, tenant: nat, user: nat): (r: seq<Membership>)
    ensures forall m :: m in r <==> m in ms && !IsPair(m, tenant, user)
  {
    Filter(ms, (m: Membership) => !IsPair(m, tenant, user))
  }

  /** Deleting the pair revokes its access and no other pair's. */
  lemma DeleteRevokesAccess(ms: seq<Membership>, tenant: nat, user: nat, t: nat, u: nat)
    ensures !CheckUserAccess(DeleteMembership(ms, tenant, user), tenant, user)
    ensures !(t == tenant && u == user) ==>
              CheckUserAccess(DeleteMembership(ms, tenant, user), t, u) == CheckUserAccess(ms, t, u)
  {
  }

  /** `Create`: a membership under a fresh key. */
  function CreateMembership(db: Db, tenant: nat, user: nat, role: string): (r: (Db, Membership))
    ensures r.1 == Membership(db.nextId, tenant, user, role)
    ensures r.0 == db.(memberships := db.memberships + [r.1], nextId := db.nextId + 1)
    ensures CheckUserAccess(r.0.memberships, tenant, user)
  {
    var m := Membership(db.nextId, tenant, user, role);
    var db' := db.(memberships := db.memberships + [m], nextId := db.nextId + 1);
    assert m in db'.memberships;
    (db', m)
  }

  lemma CreateMembershipKeepsValid(db: Db, tenant: nat, user: nat, role: string)
    requires Valid(db)
    ensures Valid(CreateMembership(db, tenant, user, role).0)
  {
    var (db', m) := CreateMembership(db, tenant, user, role);
    AppendBatchKeepsKeys(db.memberships, [m], MembershipKey, db.nextId, db'.nextId);
    ValidAfter(db, db');
  }
}
