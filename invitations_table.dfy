/** The invitations table of the workspace settings page: the invite form with its role
    choice, the rows of pending invitations with their inviter, and which controls each
    role gets. */
module InvitationsTable {
  import opened Common
  import opened WorkspacesSchema
  import Rbac
  import WorkspaceSpec
  import MembersTable

  /** The roles the form's state can hold: `Exclude<Role, "owner">`. */
  type InviteRole = r: Role | r != Owner witness Member

  /** The form's role before the user picks one. */
  const DefaultInviteRole: InviteRole := Member

  /** `roles.filter((r) => r !== "owner")`. */
  function WithoutOwner(roles: seq<Role>): seq<Role>
  {
    if roles == [] then []
    else if roles[0] == Owner then WithoutOwner(roles[1..])
    else [roles[0]] + WithoutOwner(roles[1..])
  }

  /** The role select of the invite form, over `Object.values(ROLES)`. */
  function InviteRoleOptions(): seq<Role>
  {
    WithoutOwner(AllRoles)
  }

  /** `inviterName || inviterEmail || "Unknown"`. */
  function InviterDisplay(p: Option<WorkspaceSpec.InviterProfile>): string
  {
    if p.Some? && Truthy(p.value.name) then p.value.name.value
    else if p.Some? && Truthy(p.value.email) then p.value.email.value
    else "Unknown"
  }

  /** What a row of the table shows, and whether it has a revoke button. */
  datatype Row = Row(email: string, role: string, invitedBy: string, revoke: bool)

  function RowOf(v: WorkspaceSpec.InvitationView, permissions: seq<Rbac.Permission>): Row
  {
    Row(v.email, MembersTable.RoleLabel(v.role), InviterDisplay(v.invitedByProfile), Rbac.ManageMembers in permissions)
  }

  /** The invite form: absent without INVITE_MEMBERS. */
  datatype Form =
    | NoForm
    | InviteForm(email: string, role: InviteRole, options: seq<Role>, sendDisabled: bool, sendCaption: string)

  function FormOf(permissions: seq<Rbac.Permission>, email: string, role: InviteRole, pending: bool): Form
  {
    if Rbac.InviteMembers !in permissions then NoForm
    else InviteForm(email, role, InviteRoleOptions(), email == "" || pending,
                    if pending then "Sending..." else "Send Invitation")
  }

  /** `handleCreateInvitation()`: the request it sends, or none without a selected
      workspace id. */
  function HandleCreate(workspaceId: Option<Uuid>, email: string, role: InviteRole): Option<WorkspaceSpec.CreateInvitationInput>
  {
    if !Truthy(workspaceId) then None
    else Some(WorkspaceSpec.CreateInvitationInput(workspaceId.value, email, role))
  }

  lemma {:induction false} WithoutOwnerFilters(roles: seq<Role>)
    ensures forall r :: r in WithoutOwner(roles) <==> r in roles && r != Owner
  {
    if roles != [] {
      WithoutOwnerFilters(roles[1..]);
      assert forall r :: r in roles <==> r == roles[0] || r in roles[1..];
    }
  }

  /** The form offers admin and member, in that order, never owner, and starts on member. */
  lemma InviteRoles()
    ensures InviteRoleOptions() == [Admin, Member]
    ensures Owner !in InviteRoleOptions()
    ensures DefaultInviteRole in InviteRoleOptions()
    ensures forall r: InviteRole :: r in InviteRoleOptions()
  {
    WithoutOwnerFilters(AllRoles);
    assert AllRoles[1..] == [Admin, Member];
    assert AllRoles[2..] == [Member];
  }

  /** How a listed invitation shows its inviter: the inviter profile's name, else its
      email, else "Unknown" (also when there is no inviter or no such profile). */
  lemma InviterShown(t: WorkspaceSpec.Tables, v: WorkspaceInvitation)
    ensures var shown := InviterDisplay(WorkspaceSpec.ViewOf(t, v).invitedByProfile);
      if v.invitedBy.Some? && v.invitedBy.value in t.profiles then
        var p := t.profiles[v.invitedBy.value];
        shown == (if Truthy(p.name) then p.name.value else if Truthy(p.email) then p.email.value else "Unknown")
      else shown == "Unknown"
  {
  }

  /** Which role gets which control: owners and admins may revoke and invite, members
      neither; Send is disabled while the email is empty or a send is pending. */
  lemma ControlsByRole(role: Role, v: WorkspaceSpec.InvitationView, email: string, choice: InviteRole, pending: bool)
    ensures RowOf(v, Rbac.RolePermissions(role)).revoke <==> role != Member
    ensures FormOf(Rbac.RolePermissions(role), email, choice, pending).InviteForm? <==> role != Member
    ensures FormOf(Rbac.RolePermissions(role), email, choice, pending).InviteForm? ==>
      (FormOf(Rbac.RolePermissions(role), email, choice, pending).sendDisabled <==> email == "" || pending)
  {
    Rbac.RolePermissionsTable();
  }

  /** A send goes out only with a selected workspace, carries the form's email and role,
      and is never refused for its role: the owner role the server's input schema rejects
      cannot be chosen. Email format is not part of the model. */
  lemma SendNeverRequestsOwner(workspaceId: Option<Uuid>, email: string, role: InviteRole,
                               t: WorkspaceSpec.Tables, caller: Option<Uuid>, invitationId: Uuid, now: nat)
    ensures HandleCreate(workspaceId, email, role).Some? <==> Truthy(workspaceId)
    ensures HandleCreate(workspaceId, email, role).Some? ==>
      var input := HandleCreate(workspaceId, email, role).value;
      && input == WorkspaceSpec.CreateInvitationInput(workspaceId.value, email, role)
      && var r := WorkspaceSpec.CreateInvitation(t, caller, input, invitationId, now).result;
         !(r.Err? && r.error.code == BadRequest)
  {
  }
}
