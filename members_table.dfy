/** The members table of the workspace settings page: the owner count over the loaded
    members, the last-owner test, and what the role and actions cells of a row show. */
module MembersTable {
  import opened Common
  import opened WorkspacesSchema
  import Rbac
  import WorkspaceSpec

  /** A loaded row, as `getWorkspaceMembers` returns it. */
  type Member = WorkspaceSpec.MemberView

  /** `getOwnerCount()`: how many loaded members have the owner role. */
  function OwnerCount(members: seq<Member>): nat
  {
    if members == [] then 0
    else (if members[0].role == Owner then 1 else 0) + OwnerCount(members[1..])
  }

  predicate IsLastOwner(members: seq<Member>, m: Member)
  {
    m.role == Owner && OwnerCount(members) == 1
  }

  /** `role.charAt(0).toUpperCase() + role.slice(1)`. */
  function RoleLabel(r: Role): string
  {
    var n := RoleName(r);
    [UpperChar(n[0])] + n[1..]
  }

  /** The role cell: plain text without MANAGE_MEMBERS, else a select over all roles. */
  datatype RoleCell =
    | RoleText(role: Role)
    | RoleSelect(value: Role, options: seq<Role>, disabled: bool, title: Option<string>)

  /** The actions cell: nothing without MANAGE_MEMBERS, else a remove button. */
  datatype ActionsCell =
    | NoActions
    | RemoveButton(disabled: bool, title: Option<string>)

  function RoleCellOf(members: seq<Member>, m: Member, permissions: seq<Rbac.Permission>): RoleCell
  {
    if Rbac.ManageMembers !in permissions then RoleText(m.role)
    else
      var last := IsLastOwner(members, m);
      RoleSelect(m.role, AllRoles, last, if last then Some("Cannot change the last owner's role") else None)
  }

  function ActionsCellOf(members: seq<Member>, m: Member, permissions: seq<Rbac.Permission>): ActionsCell
  {
    if Rbac.ManageMembers !in permissions then NoActions
    else
      var last := IsLastOwner(members, m);
      RemoveButton(last, if last then Some("Cannot remove the last owner") else None)
  }

  /** No owner is loaded exactly when the count is zero. */
  lemma {:induction false} NoOwners(members: seq<Member>)
    ensures OwnerCount(members) == 0 <==> forall i :: 0 <= i < |members| ==> members[i].role != Owner
  {
    if members != [] {
      NoOwners(members[1..]);
      assert forall i :: 1 <= i < |members| ==> members[i] == members[1..][i - 1];
    }
  }

  /** The count is one exactly when a single row holds the owner role. */
  lemma {:induction false} SingleOwner(members: seq<Member>, k: nat)
    requires k < |members| && members[k].role == Owner
    ensures OwnerCount(members) == 1 <==> forall i :: 0 <= i < |members| && members[i].role == Owner ==> i == k
  {
    var rest := members[1..];
    assert forall i :: 1 <= i < |members| ==> members[i] == rest[i - 1];
    if k == 0 {
      NoOwners(rest);
    } else {
      SingleOwner(rest, k - 1);
      if members[0].role == Owner {
        assert OwnerCount(rest) >= 1 by { NoOwners(rest); }
      }
    }
  }

  /** A member is the last owner exactly when it is the only loaded row with the owner role. */
  lemma LastOwnerIsTheOnlyOwner(members: seq<Member>, k: nat)
    requires k < |members|
    ensures IsLastOwner(members, members[k]) <==>
      members[k].role == Owner && forall i :: 0 <= i < |members| && members[i].role == Owner ==> i == k
  {
    if members[k].role == Owner {
      SingleOwner(members, k);
    }
  }

  /** The role select offers every role, labelled with its capitalised name, and both
      controls are disabled for the last owner only; without MANAGE_MEMBERS there is
      neither a select nor a remove button. */
  lemma CellsFollowPermissionAndGuard(members: seq<Member>, m: Member, permissions: seq<Rbac.Permission>)
    ensures RoleCellOf(members, m, permissions).RoleSelect? <==> Rbac.ManageMembers in permissions
    ensures ActionsCellOf(members, m, permissions).RemoveButton? <==> Rbac.ManageMembers in permissions
    ensures RoleCellOf(members, m, permissions).RoleSelect? ==>
      && RoleCellOf(members, m, permissions).options == [Owner, Admin, Member]
      && (RoleCellOf(members, m, permissions).disabled <==> m.role == Owner && OwnerCount(members) == 1)
    ensures ActionsCellOf(members, m, permissions).RemoveButton? ==>
      (ActionsCellOf(members, m, permissions).disabled <==> m.role == Owner && OwnerCount(members) == 1)
    ensures RoleLabel(Owner) == "Owner" && RoleLabel(Admin) == "Admin" && RoleLabel(Member) == "Member"
  {
  }

  // ---- the table against the server's guard ----

  /** The rows of a loaded table: each is a row the server lists for the workspace, and
      no membership appears twice. */
  ghost predicate LoadedFrom(members: seq<Member>, t: WorkspaceSpec.Tables, workspaceId: Uuid)
  {
    && (forall i :: 0 <= i < |members| ==> members[i] in WorkspaceSpec.GetWorkspaceMembers(t, workspaceId))
    && (forall i, j :: 0 <= i < j < |members| ==> members[i].id != members[j].id)
  }

  function OwnerIds(members: seq<Member>): set<Uuid>
  {
    set i | 0 <= i < |members| && members[i].role == Owner :: members[i].id
  }

  lemma {:induction false} OwnerIdsCount(members: seq<Member>)
    requires forall i, j :: 0 <= i < j < |members| ==> members[i].id != members[j].id
    ensures |OwnerIds(members)| == OwnerCount(members)
  {
    if members != [] {
      var rest := members[1..];
      assert forall i :: 1 <= i < |members| ==> members[i] == rest[i - 1];
      OwnerIdsCount(rest);
      var head := if members[0].role == Owner then {members[0].id} else {};
      assert OwnerIds(members) == head + OwnerIds(rest) by {
        forall x | x in OwnerIds(members) ensures x in head + OwnerIds(rest) {
          var i :| 0 <= i < |members| && members[i].role == Owner && members[i].id == x;
          if i > 0 { assert rest[i - 1].id == x; }
        }
        forall x | x in OwnerIds(rest) ensures x in OwnerIds(members) {
          var i :| 0 <= i < |rest| && rest[i].role == Owner && rest[i].id == x;
          assert members[i + 1] == rest[i];
        }
      }
      assert members[0].id !in OwnerIds(rest);
    }
  }

  /** Every owner row the table shows is an active owner row on the server. */
  lemma LoadedOwnersAreActive(members: seq<Member>, t: WorkspaceSpec.Tables, workspaceId: Uuid, k: nat)
    requires LoadedFrom(members, t, workspaceId) && k < |members|
    ensures members[k].id in t.members
    ensures t.members[members[k].id].role == members[k].role
    ensures t.members[members[k].id].workspaceId == workspaceId
    ensures members[k].role == Owner ==> members[k].id in WorkspaceSpec.ActiveOwners(t.members, workspaceId)
  {
    assert members[k] in WorkspaceSpec.GetWorkspaceMembers(t, workspaceId);
  }

  /** The table never counts more owners than the server's guard does (it can count
      fewer: owners without a profile are not listed). */
  lemma CountNeverExceedsServer(members: seq<Member>, t: WorkspaceSpec.Tables, workspaceId: Uuid)
    requires LoadedFrom(members, t, workspaceId)
    ensures OwnerCount(members) <= WorkspaceSpec.OwnerCount(t.members, workspaceId)
  {
    OwnerIdsCount(members);
    forall x | x in OwnerIds(members) ensures x in WorkspaceSpec.ActiveOwners(t.members, workspaceId) {
      var i :| 0 <= i < |members| && members[i].role == Owner && members[i].id == x;
      LoadedOwnersAreActive(members, t, workspaceId, i);
    }
    SubsetCard(OwnerIds(members), WorkspaceSpec.ActiveOwners(t.members, workspaceId));
  }

  lemma SubsetCard(a: set<Uuid>, b: set<Uuid>)
    requires a <= b
    ensures |a| <= |b|
  {
    assert b == a + (b - a);
  }

  /** An owner row shown as a listed owner: the table counts at least one owner. */
  lemma OwnerRowCounts(members: seq<Member>, k: nat)
    requires k < |members| && members[k].role == Owner
    ensures OwnerCount(members) >= 1
  {
    NoOwners(members);
  }

  /** A remove button the table enables is never refused by the server: the row exists
      and the last-owner guard lets it through. */
  lemma EnabledRemovalIsAccepted(members: seq<Member>, t: WorkspaceSpec.Tables, workspaceId: Uuid, k: nat,
                                 permissions: seq<Rbac.Permission>, now: nat)
    requires LoadedFrom(members, t, workspaceId) && k < |members|
    requires ActionsCellOf(members, members[k], permissions) == RemoveButton(false, None)
    ensures WorkspaceSpec.RemoveMember(t, members[k].id, now).result.Ok?
  {
    LoadedOwnersAreActive(members, t, workspaceId, k);
    if members[k].role == Owner {
      OwnerRowCounts(members, k);
      CountNeverExceedsServer(members, t, workspaceId);
    }
  }

  /** A role select the table enables never leads to a refused role change. */
  lemma EnabledRoleChangeIsAccepted(members: seq<Member>, t: WorkspaceSpec.Tables, workspaceId: Uuid, k: nat,
                                    permissions: seq<Rbac.Permission>, role: Role, now: nat)
    requires LoadedFrom(members, t, workspaceId) && k < |members|
    requires RoleCellOf(members, members[k], permissions).RoleSelect?
    requires !RoleCellOf(members, members[k], permissions).disabled
    ensures WorkspaceSpec.UpdateMemberRole(t, members[k].id, role, now).result.Ok?
  {
    LoadedOwnersAreActive(members, t, workspaceId, k);
    if members[k].role == Owner {
      OwnerRowCounts(members, k);
      CountNeverExceedsServer(members, t, workspaceId);
    }
  }
}
