/** The server's persistent entities (the `model` package) and the database they
    live in.  Each table is a sequence of rows in storage order; every row
    carries its primary key and, where the model is tenant-scoped, its
    tenant.  Timestamps are reduced to a creation instant; soft deletion
    is modelled as removal. */
module Entities {
  import opened Wrappers
  import opened Seqs

  /** `model.Tenant`. */
  datatype Tenant = Tenant(id: nat, name: string, status: string)

  /** `model.User`; `passwordHash` is whatever the password hasher produced. */
  datatype User = User(id: nat, email: string, passwordHash: string, fullName: string, isActive: bool)

  /** `model.TenantUser`: a user's membership of a tenant, with a role. */
  datatype Membership = Membership(id: nat, tenantId: nat, userId: nat, role: string)

  /** `model.PipelineStage`. */
  datatype Stage = Stage(
    id: nat, tenantId: nat,
    name: string, order: int, probability: int, color: string,
    isDefault: bool, isClosedWon: bool, isClosedLost: bool)

  /** `model.Contact` (the fields the server's rules read or write; the
      remaining free-text fields are carried in `notes`).  `tags` is
      `None` for Go's nil list: a body without `tags`, or with `null`. */
  datatype Contact = Contact(
    id: nat, tenantId: nat, createdBy: nat,
    firstName: string, lastName: string, email: string, phone: string,
    companyName: string, city: string, province: string,
    status: string, source: string, tags: Option<seq<string>>, notes: string)

  /** `model.Deal`.  Money is an integer amount; `createdAt` is the instant
      the row was inserted; an absent expected close date is `None`. */
  datatype Deal = Deal(
    id: nat, tenantId: nat, createdBy: nat, contactId: nat,
    title: string, description: string, value: int, currency: string,
    stageId: nat, probability: int, expectedCloseDate: Option<int>,
    status: string, source: string, notes: string, createdAt: int)

  /** `model.AuditLog`. */
  datatype AuditLog = AuditLog(tenantId: nat, userId: nat, action: string, resource: string, resourceId: nat)

  /** The whole database.  `nextId` is the next primary key to hand out. */
  datatype Db = Db(
    tenants: seq<Tenant>, users: seq<User>, memberships: seq<Membership>,
    stages: seq<Stage>, contacts: seq<Contact>, deals: seq<Deal>,
    auditLogs: seq<AuditLog>, nextId: nat)

  /** Primary keys are positive, distinct and below the next key. */
  ghost predicate KeysOk<R(!new)>(rows: seq<R>, idOf: R -> nat, nextId: nat)
  {
    && (forall i :: 0 <= i < |rows| ==> 0 < idOf(rows[i]) < nextId)
    && (forall i, j :: 0 <= i < j < |rows| ==> idOf(rows[i]) != idOf(rows[j]))
  }

  function TenantKey(t: Tenant): nat { t.id }
  function UserKey(u: User): nat { u.id }
  function MembershipKey(m: Membership): nat { m.id }
  function StageKey(s: Stage): nat { s.id }
  function ContactKey(c: Contact): nat { c.id }
  function DealKey(d: Deal): nat { d.id }

  /** The well-formedness every operation keeps. */
  ghost predicate Valid(db: Db)
  {
    && db.nextId > 0
    && KeysOk(db.tenants, TenantKey, db.nextId)
    && KeysOk(db.users, UserKey, db.nextId)
    && KeysOk(db.memberships, MembershipKey, db.nextId)
    && KeysOk(db.stages, StageKey, db.nextId)
    && KeysOk(db.contacts, ContactKey, db.nextId)
    && KeysOk(db.deals, DealKey, db.nextId)
  }

  /** Raising the next key keeps every table's keys valid. */
  lemma RaiseNextKeepsKeys<R(!new)>(rows: seq<R>, idOf: R -> nat, nextId: nat, nextId': nat)
    requires KeysOk(rows, idOf, nextId) && nextId <= nextId'
    ensures KeysOk(rows, idOf, nextId')
  {
  }

  /** GORM's struct `Updates`: a field is written only when the new value is
      not the zero value of its type. */
  function NonZeroOr<T(==)>(patch: T, zero: T, current: T): (v: T)
    ensures patch == zero ==> v == current
    ensures patch != zero ==> v == patch
  {
    if patch == zero then current else patch
  }

  /** A fresh key is above every key in use, so appending a row with it
      keeps keys distinct. */
  lemma {:induction false} AppendKeepsKeys<R(!new)>(rows: seq<R>, idOf: R -> nat, nextId: nat, row: R)
    requires KeysOk(rows, idOf, nextId)
    requires idOf(row) == nextId && nextId > 0
    ensures KeysOk(rows + [row], idOf, nextId + 1)
  {
    var rows' := rows + [row];
    forall i, j | 0 <= i < j < |rows'|
      ensures idOf(rows'[i]) != idOf(rows'[j])
    {
      if j == |rows| {
        assert rows'[i] == rows[i];
      } else {
        assert rows'[i] == rows[i] && rows'[j] == rows[j];
      }
    }
    forall i | 0 <= i < |rows'|
      ensures 0 < idOf(rows'[i]) < nextId + 1
    {
      if i < |rows| {
        assert rows'[i] == rows[i];
      }
    }
  }

  /** Rewriting rows in place without touching their keys keeps keys valid. */
  lemma SameKeysKeepsKeys<R(!new)>(rows: seq<R>, rows': seq<R>, idOf: R -> nat, nextId: nat)
    requires KeysOk(rows, idOf, nextId)
    requires |rows'| == |rows| && forall k :: 0 <= k < |rows| ==> idOf(rows'[k]) == idOf(rows[k])
    ensures KeysOk(rows', idOf, nextId)
  {
  }

  /** Dropping rows keeps keys valid. */
  lemma {:induction false} FilterKeepsKeys<R(!new)>(rows: seq<R>, idOf: R -> nat, nextId: nat, p: R -> bool)
    requires KeysOk(rows, idOf, nextId)
    ensures KeysOk(Filter(rows, p), idOf, nextId)
    decreases |rows|
  {
    if |rows| > 0 {
      var tail := rows[1..];
      assert KeysOk(tail, idOf, nextId) by {
        forall i, j | 0 <= i < j < |tail| ensures idOf(tail[i]) != idOf(tail[j]) {
          assert tail[i] == rows[i + 1] && tail[j] == rows[j + 1];
        }
      }
      FilterKeepsKeys(tail, idOf, nextId, p);
      if p(rows[0]) {
        var f := Filter(rows, p);
        var ft := Filter(tail, p);
        assert f == [rows[0]] + ft;
        forall i, j | 0 <= i < j < |f| ensures idOf(f[i]) != idOf(f[j]) {
          if i == 0 {
            assert f[j] == ft[j - 1] && f[j] in tail;
            var k :| 0 <= k < |tail| && tail[k] == f[j];
            assert rows[k + 1] == f[j];
          } else {
            assert f[i] == ft[i - 1] && f[j] == ft[j - 1];
          }
        }
        forall i | 0 <= i < |f| ensures 0 < idOf(f[i]) < nextId {
          assert f[i] in rows;
        }
      }
    }
  }

  /** Appending rows whose keys are distinct and lie in `[nextId, nextId')`
      keeps keys valid under the raised next key. */
  lemma AppendBatchKeepsKeys<R(!new)>(rows: seq<R>, batch: seq<R>, idOf: R -> nat, nextId: nat, nextId': nat)
    requires KeysOk(rows, idOf, nextId) && 0 < nextId <= nextId'
    requires forall i :: 0 <= i < |batch| ==> nextId <= idOf(batch[i]) < nextId'
    requires forall i, j :: 0 <= i < j < |batch| ==> idOf(batch[i]) != idOf(batch[j])
    ensures KeysOk(rows + batch, idOf, nextId')
  {
    var all := rows + batch;
    forall i, j | 0 <= i < j < |all|
      ensures idOf(all[i]) != idOf(all[j])
    {
      if j < |rows| {
        assert all[i] == rows[i] && all[j] == rows[j];
      } else if i < |rows| {
        assert all[i] == rows[i] && all[j] == batch[j - |rows|];
      } else {
        assert all[i] == batch[i - |rows|] && all[j] == batch[j - |rows|];
      }
    }
    forall i | 0 <= i < |all|
      ensures 0 < idOf(all[i]) < nextId'
    {
      if i < |rows| {
        assert all[i] == rows[i];
      } else {
        assert all[i] == batch[i - |rows|];
      }
    }
  }

  /** With distinct keys, the row found by key is the only row with it. */
  lemma OnlyRowWithKey<R(!new)>(rows: seq<R>, idOf: R -> nat, nextId: nat, found: R)
    requires KeysOk(rows, idOf, nextId) && found in rows
    ensures forall k :: 0 <= k < |rows| && idOf(rows[k]) == idOf(found) ==> rows[k] == found
  {
  }

  /** A database stays valid when the next key does not go down and every
      table is either unchanged or has valid keys under the new next key. */
  lemma ValidAfter(db: Db, db': Db)
    requires Valid(db) && db.nextId <= db'.nextId
    requires db'.tenants == db.tenants || KeysOk(db'.tenants, TenantKey, db'.nextId)
    requires db'.users == db.users || KeysOk(db'.users, UserKey, db'.nextId)
    requires db'.memberships == db.memberships || KeysOk(db'.memberships, MembershipKey, db'.nextId)
    requires db'.stages == db.stages || KeysOk(db'.stages, StageKey, db'.nextId)
    requires db'.contacts == db.contacts || KeysOk(db'.contacts, ContactKey, db'.nextId)
    requires db'.deals == db.deals || KeysOk(db'.deals, DealKey, db'.nextId)
    ensures Valid(db')
  {
    if db'.tenants == db.tenants { RaiseNextKeepsKeys(db.tenants, TenantKey, db.nextId, db'.nextId); }
    if db'.users == db.users { RaiseNextKeepsKeys(db.users, UserKey, db.nextId, db'.nextId); }
    if db'.memberships == db.memberships { RaiseNextKeepsKeys(db.memberships, MembershipKey, db.nextId, db'.nextId); }
    if db'.stages == db.stages { RaiseNextKeepsKeys(db.stages, StageKey, db.nextId, db'.nextId); }
    if db'.contacts == db.contacts { RaiseNextKeepsKeys(db.contacts, ContactKey, db.nextId, db'.nextId); }
    if db'.deals == db.deals { RaiseNextKeepsKeys(db.deals, DealKey, db.nextId, db'.nextId); }
  }
}
