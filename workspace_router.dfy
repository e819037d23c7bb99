/** The workspace router's procedures as transitions of the database tables. Each
    procedure is one atomic step: given the tables before the call and its inputs, it
    yields the tables after the call and what the caller receives. The class in module
    WorkspaceRouter performs the same procedures step by step on its own fields. */
module WorkspaceSpec {
  import opened Common
  import opened WorkspacesSchema
  import opened ProfilesSchema
  import Rbac

  datatype Tables = Tables(
    workspaces: map<Uuid, Workspace>,
    members: map<Uuid, WorkspaceMember>,
    invitations: map<Uuid, WorkspaceInvitation>,
    profiles: map<Uuid, Profile>)

  /** The tables after a call, and the procedure's answer. */
  datatype Step<T> = Step(tables: Tables, result: Result<T>)

  /** What createWorkspace and acceptInvitation hand back. */
  datatype Granted = Granted(workspace: Workspace, role: Role, permissions: seq<Rbac.Permission>)

  /** The message of a statement the database rejects (it reaches the caller as
      INTERNAL_SERVER_ERROR). */
  const DatabaseError: string := "database constraint violated"

  // ---- The constraints the database keeps ----

  ghost predicate WorkspacesOk(t: Tables)
  {
    && (forall id :: id in t.workspaces ==>
          t.workspaces[id].id == id
          && |t.workspaces[id].name| <= WorkspaceNameMaxLength
          && t.workspaces[id].createdBy in t.profiles)
    && UniqueSlugs(t.workspaces)
  }

  ghost predicate MembersOk(t: Tables)
  {
    && (forall id :: id in t.members ==>
          t.members[id].id == id
          && t.members[id].workspaceId in t.workspaces
          && t.members[id].userId in t.profiles)
    && UniqueMemberships(t.members)
  }

  ghost predicate InvitationsOk(t: Tables)
  {
    && (forall id :: id in t.invitations ==>
          t.invitations[id].id == id
          && t.invitations[id].workspaceId in t.workspaces
          && (t.invitations[id].invitedBy.Some? ==> t.invitations[id].invitedBy.value in t.profiles)
          && |t.invitations[id].email| <= InvitationEmailMaxLength)
    && UniqueInvitations(t.invitations)
  }

  /** Primary keys, unique constraints, foreign keys and column lengths of the three tables. */
  ghost predicate Valid(t: Tables)
  {
    WorkspacesOk(t) && MembersOk(t) && InvitationsOk(t)
  }

  /** `ctx.user?.id` is set. */
  predicate CallerPresent(caller: Option<Uuid>)
  {
    Truthy(caller)
  }

  /** The database accepts this workspace row as a new row. */
  predicate WorkspaceInsertOk(t: Tables, w: Workspace)
  {
    && w.id !in t.workspaces
    && |w.name| <= WorkspaceNameMaxLength
    && (w.slug.Some? ==> !SlugHeld(t.workspaces, w.slug.value, w.id))
    && w.createdBy in t.profiles
  }

  /** The database accepts this membership row as a new row; note that a soft-deleted row
      for the same (workspace, user) pair still blocks it. */
  predicate MemberInsertOk(t: Tables, m: WorkspaceMember)
  {
    && m.id !in t.members
    && !MembershipRowExists(t.members, m.workspaceId, m.userId)
    && m.workspaceId in t.workspaces
    && m.userId in t.profiles
  }

  predicate InvitationInsertOk(t: Tables, v: WorkspaceInvitation)
  {
    && v.id !in t.invitations
    && !InvitationRowExists(t.invitations, v.workspaceId, v.email)
    && v.workspaceId in t.workspaces
    && (v.invitedBy.Some? ==> v.invitedBy.value in t.profiles)
    && |v.email| <= InvitationEmailMaxLength
  }

  function Fail<T>(t: Tables, code: Code, message: string): Step<T>
  {
    Step(t, Err(Error(code, message)))
  }

  // ---- createWorkspace ----

  datatype CreateWorkspaceInput = CreateWorkspaceInput(name: string, slug: Option<string>, description: Option<string>)

  /** Insert the workspace and the creator's owner membership in one transaction. */
  function CreateWorkspace(t: Tables, caller: Option<Uuid>, input: CreateWorkspaceInput,
                           workspaceId: Uuid, memberId: Uuid, now: nat): Step<Granted>
  {
    if !CallerPresent(caller) then Fail(t, Unauthorized, "You must be logged in to create a workspace")
    else
      var w := InsertedWorkspace(workspaceId, input.name, input.slug, input.description, caller.value, now);
      if !WorkspaceInsertOk(t, w) then Fail(t, InternalServerError, DatabaseError)
      else
        var t1 := t.(workspaces := t.workspaces[workspaceId := w]);
        var m := InsertedMember(memberId, workspaceId, caller.value, Some(Owner), now);
        if !MemberInsertOk(t1, m) then Fail(t, InternalServerError, DatabaseError)
        else Step(t1.(members := t1.members[memberId := m]), Ok(Granted(w, Owner, Rbac.RolePermissions(Owner))))
  }

  // ---- getUserWorkspaces ----

  /** A workspace row together with the caller's role in it. */
  datatype UserWorkspace = UserWorkspace(workspace: Workspace, role: Role)

  predicate ListedFor(t: Tables, id: Uuid, userId: Uuid)
  {
    && id in t.members
    && t.members[id].userId == userId
    && t.members[id].deletedAt.None?
    && t.members[id].workspaceId in t.workspaces
    && t.workspaces[t.members[id].workspaceId].deletedAt.None?
  }

  /** The caller's active memberships in workspaces that are not deleted, with their roles. */
  function GetUserWorkspaces(t: Tables, caller: Option<Uuid>): Result<set<UserWorkspace>>
  {
    if !CallerPresent(caller) then Err(Error(Unauthorized, "You must be logged in to fetch workspaces"))
    else Ok(set id | id in t.members && ListedFor(t, id, caller.value)
                :: UserWorkspace(t.workspaces[t.members[id].workspaceId], t.members[id].role))
  }

  // ---- getWorkspaceMembers ----

  datatype MemberView = MemberView(id: Uuid, userId: Uuid, role: Role, name: Option<string>, email: Option<string>)

  /** Active memberships of the workspace joined with their profiles (inner join). */
  function GetWorkspaceMembers(t: Tables, workspaceId: Uuid): set<MemberView>
  {
    set id | id in t.members && t.members[id].workspaceId == workspaceId && t.members[id].deletedAt.None?
                && t.members[id].userId in t.profiles
      :: MemberView(id, t.members[id].userId, t.members[id].role,
                    t.profiles[t.members[id].userId].name, t.profiles[t.members[id].userId].email)
  }

  // ---- the last-owner guard ----

  /** The ids the guard's `count(*)` counts: active owner rows of the workspace. */
  function ActiveOwners(ms: map<Uuid, WorkspaceMember>, workspaceId: Uuid): set<Uuid>
  {
    set id | id in ms && ms[id].workspaceId == workspaceId && ms[id].role == Owner && ms[id].deletedAt.None?
  }

  function OwnerCount(ms: map<Uuid, WorkspaceMember>, workspaceId: Uuid): nat
  {
    |ActiveOwners(ms, workspaceId)|
  }

  // ---- updateMemberRole ----

  /** Change a membership's role. Nobody's permission is checked; only the last active
      owner is protected. The target row is found whether or not it is soft-deleted. */
  function UpdateMemberRole(t: Tables, memberId: Uuid, role: Role, now: nat): Step<WorkspaceMember>
  {
    if memberId !in t.members then Fail(t, NotFound, "Member not found")
    else
      var m := t.members[memberId];
      if m.role == Owner && role != Owner && OwnerCount(t.members, m.workspaceId) <= 1 then
        Fail(t, Forbidden, "Cannot change role of the last owner")
      else
        var m' := m.(role := role, updatedAt := now);
        Step(t.(members := t.members[memberId := m']), Ok(m'))
  }

  // ---- removeMember ----

  /** Soft-delete a membership; an owner row is refused while the workspace has at most
      one active owner. Non-owner rows are never guarded. */
  function RemoveMember(t: Tables, memberId: Uuid, now: nat): Step<WorkspaceMember>
  {
    if memberId !in t.members then Fail(t, NotFound, "Member not found")
    else
      var m := t.members[memberId];
      if m.role == Owner && OwnerCount(t.members, m.workspaceId) <= 1 then
        Fail(t, Forbidden, "Cannot remove the last owner of the workspace")
      else
        var m' := m.(deletedAt := Some(now), updatedAt := now);
        Step(t.(members := t.members[memberId := m']), Ok(m'))
  }

  // ---- updateWorkspace ----

  datatype UpdateWorkspaceInput = UpdateWorkspaceInput(id: Uuid, name: string, slug: Option<string>, description: Option<string>)

  /** The router's gate: the caller has an active owner or admin membership. */
  predicate MayEditSettings(t: Tables, workspaceId: Uuid, caller: Uuid)
  {
    HoldsActiveRole(t.members, workspaceId, caller, {Owner, Admin})
  }

  /** A different workspace that is not deleted already uses the slug. */
  predicate SlugInUse(t: Tables, slug: string, except: Uuid)
  {
    exists id :: id in t.workspaces && id != except && t.workspaces[id].slug == Some(slug)
                 && t.workspaces[id].deletedAt.None?
  }

  /** The row after `.set(...)`: omitted slug and description keep their values. */
  function EditedWorkspace(w: Workspace, input: UpdateWorkspaceInput, now: nat): Workspace
  {
    w.(name := input.name,
       slug := if input.slug.Some? then input.slug else w.slug,
       description := if input.description.Some? then input.description else w.description,
       updatedAt := now)
  }

  /** Update name, slug and description. An update that matches no row returns nothing. */
  function UpdateWorkspace(t: Tables, caller: Uuid, input: UpdateWorkspaceInput, now: nat): Step<Option<Workspace>>
  {
    if input.name == "" || (input.slug.Some? && input.slug.value == "") then
      Fail(t, BadRequest, "invalid input")
    else if !MayEditSettings(t, input.id, caller) then
      Fail(t, Forbidden, "You don't have permission to update this workspace")
    else if input.slug.Some? && SlugInUse(t, input.slug.value, input.id) then
      Fail(t, Conflict, "A workspace with this slug already exists")
    else if input.id !in t.workspaces then Step(t, Ok(None))
    else
      var w' := EditedWorkspace(t.workspaces[input.id], input, now);
      if |w'.name| > WorkspaceNameMaxLength || (w'.slug.Some? && SlugHeld(t.workspaces, w'.slug.value, input.id)) then
        Fail(t, InternalServerError, DatabaseError)
      else Step(t.(workspaces := t.workspaces[input.id := w']), Ok(Some(w')))
  }

  // ---- getWorkspaceInvitations ----

  datatype InviterProfile = InviterProfile(name: Option<string>, email: Option<string>)

  datatype InvitationView = InvitationView(
    id: Uuid, email: string, role: Role, status: InvitationStatus, expiresAt: nat, createdAt: nat,
    invitedBy: Option<Uuid>, invitedByProfile: Option<InviterProfile>)

  /** The left-joined inviter: null when there is no inviter profile, or when both of its
      selected columns are null. */
  function Inviter(t: Tables, invitedBy: Option<Uuid>): Option<InviterProfile>
  {
    if invitedBy.Some? && invitedBy.value in t.profiles
       && (t.profiles[invitedBy.value].name.Some? || t.profiles[invitedBy.value].email.Some?)
    then Some(InviterProfile(t.profiles[invitedBy.value].name, t.profiles[invitedBy.value].email))
    else None
  }

  function ViewOf(t: Tables, v: WorkspaceInvitation): InvitationView
  {
    InvitationView(v.id, v.email, v.role, v.status, v.expiresAt, v.createdAt, v.invitedBy, Inviter(t, v.invitedBy))
  }

  /** The workspace's pending invitations with their inviters. */
  function GetWorkspaceInvitations(t: Tables, workspaceId: Uuid): set<InvitationView>
  {
    set id | id in t.invitations && t.invitations[id].workspaceId == workspaceId && t.invitations[id].status == Pending
      :: ViewOf(t, t.invitations[id])
  }

  // ---- createInvitation ----

  datatype CreateInvitationInput = CreateInvitationInput(workspaceId: Uuid, email: string, role: Role)

  /** 30 days, in milliseconds. */
  const InvitationLifetime: nat := 30 * 24 * 60 * 60 * 1000

  predicate PendingInvitationExists(t: Tables, workspaceId: Uuid, email: string)
  {
    exists id :: id in t.invitations && t.invitations[id].workspaceId == workspaceId
                 && t.invitations[id].email == email && t.invitations[id].status == Pending
  }

  /** Someone whose profile has this email holds an active membership in the workspace. */
  predicate ActiveMemberWithEmail(t: Tables, workspaceId: Uuid, email: string)
  {
    exists id :: id in t.members && t.members[id].workspaceId == workspaceId && t.members[id].deletedAt.None?
                 && t.members[id].userId in t.profiles && t.profiles[t.members[id].userId].email == Some(email)
  }

  /** Issue a pending invitation. The input admits only admin and member roles; the
      caller's own permissions are not checked. */
  function CreateInvitation(t: Tables, caller: Option<Uuid>, input: CreateInvitationInput,
                            invitationId: Uuid, now: nat): Step<WorkspaceInvitation>
  {
    if input.role == Owner then Fail(t, BadRequest, "invalid input")
    else if !CallerPresent(caller) then Fail(t, Unauthorized, "You must be logged in to create invitations")
    else if PendingInvitationExists(t, input.workspaceId, input.email) then
      Fail(t, Conflict, "An invitation for this email already exists")
    else if ActiveMemberWithEmail(t, input.workspaceId, input.email) then
      Fail(t, Conflict, "This user is already a member of the workspace")
    else
      var v := InsertedInvitation(invitationId, input.workspaceId, input.email, Some(input.role), Some(Pending),
                                  Some(caller.value), now + InvitationLifetime, now);
      if !InvitationInsertOk(t, v) then Fail(t, InternalServerError, DatabaseError)
      else Step(t.(invitations := t.invitations[invitationId := v]), Ok(v))
  }

  // ---- revokeInvitation ----

  /** Delete the invitation and hand back the deleted row. */
  function RevokeInvitation(t: Tables, invitationId: Uuid): Step<WorkspaceInvitation>
  {
    if invitationId !in t.invitations then Fail(t, NotFound, "Invitation not found")
    else Step(t.(invitations := t.invitations - {invitationId}), Ok(t.invitations[invitationId]))
  }

  // ---- getUserInvitations ----

  datatype WorkspaceSummary = WorkspaceSummary(id: Uuid, name: string, slug: Option<string>)
  datatype UserInvitation = UserInvitation(invitation: WorkspaceInvitation, workspace: WorkspaceSummary)

  predicate InvitedAs(t: Tables, id: Uuid, email: string)
  {
    && id in t.invitations
    && t.invitations[id].email == email
    && t.invitations[id].status == Pending
    && t.invitations[id].workspaceId in t.workspaces
    && t.workspaces[t.invitations[id].workspaceId].deletedAt.None?
  }

  /** Pending invitations addressed to the caller's profile email, in live workspaces. */
  function GetUserInvitations(t: Tables, caller: Option<Uuid>): Result<set<UserInvitation>>
  {
    if !CallerPresent(caller) then Err(Error(Unauthorized, "You must be logged in to view invitations"))
    else if caller.value !in t.profiles || !Truthy(t.profiles[caller.value].email) then
      Err(Error(BadRequest, "User profile not found"))
    else
      var email := t.profiles[caller.value].email.value;
      Ok(set id | id in t.invitations && InvitedAs(t, id, email)
           :: var w := t.workspaces[t.invitations[id].workspaceId];
              UserInvitation(t.invitations[id], WorkspaceSummary(w.id, w.name, w.slug)))
  }

  // ---- acceptInvitation ----

  /** Turn the invitation into a membership of the caller and delete it, in one
      transaction. Neither the invitee's email nor the expiry is checked. */
  function AcceptInvitation(t: Tables, caller: Option<Uuid>, invitationId: Uuid, memberId: Uuid, now: nat): Step<Granted>
  {
    if !CallerPresent(caller) then Fail(t, Unauthorized, "You must be logged in to accept invitations")
    else if invitationId !in t.invitations || t.invitations[invitationId].workspaceId !in t.workspaces then
      Fail(t, NotFound, "Invitation not found")
    else
      var v := t.invitations[invitationId];
      var m := InsertedMember(memberId, v.workspaceId, caller.value, Some(v.role), now);
      if !MemberInsertOk(t, m) then Fail(t, InternalServerError, DatabaseError)
      else
        Step(t.(members := t.members[memberId := m], invitations := t.invitations - {invitationId}),
             Ok(Granted(t.workspaces[v.workspaceId], v.role, Rbac.RolePermissions(v.role))))
  }

  // ---- Properties ----

  /** A set with more than one element holds an element other than any given one. */
  lemma AnotherElement<T>(s: set<T>, x: T) returns (y: T)
    requires x in s && |s| > 1
    ensures y in s && y != x
  {
    assert |s - {x}| == |s| - 1;
    y :| y in s - {x};
  }

  lemma NonEmptyOwners(ms: map<Uuid, WorkspaceMember>, workspaceId: Uuid, id: Uuid)
    requires id in ActiveOwners(ms, workspaceId)
    ensures OwnerCount(ms, workspaceId) >= 1
  {
    assert ActiveOwners(ms, workspaceId) != {};
  }

  /** No role change leaves a workspace that had an active owner without one. */
  lemma {:induction false} RoleChangeKeepsAnOwner(t: Tables, memberId: Uuid, role: Role, now: nat, workspaceId: Uuid)
    requires OwnerCount(t.members, workspaceId) >= 1
    ensures OwnerCount(UpdateMemberRole(t, memberId, role, now).tables.members, workspaceId) >= 1
  {
    var s := UpdateMemberRole(t, memberId, role, now);
    var before := ActiveOwners(t.members, workspaceId);
    assert before != {};
    var o :| o in before;
    if s.result.Err? {
      assert s.tables == t;
    } else if o != memberId || role == Owner {
      NonEmptyOwners(s.tables.members, workspaceId, o);
    } else {
      var o2 := AnotherElement(before, o);
      NonEmptyOwners(s.tables.members, workspaceId, o2);
    }
  }

  /** No removal leaves a workspace that had an active owner without one. */
  lemma {:induction false} RemovalKeepsAnOwner(t: Tables, memberId: Uuid, now: nat, workspaceId: Uuid)
    requires OwnerCount(t.members, workspaceId) >= 1
    ensures OwnerCount(RemoveMember(t, memberId, now).tables.members, workspaceId) >= 1
  {
    var s := RemoveMember(t, memberId, now);
    var before := ActiveOwners(t.members, workspaceId);
    assert before != {};
    var o :| o in before;
    if s.result.Err? {
      assert s.tables == t;
    } else if o != memberId {
      NonEmptyOwners(s.tables.members, workspaceId, o);
    } else {
      var o2 := AnotherElement(before, o);
      NonEmptyOwners(s.tables.members, workspaceId, o2);
    }
  }

  /** The sole active owner can neither be demoted nor removed, and the refused call
      changes nothing. */
  lemma LastOwnerIsKept(t: Tables, memberId: Uuid, role: Role, now: nat)
    requires memberId in t.members
    requires ActiveOwners(t.members, t.members[memberId].workspaceId) == {memberId}
    ensures role != Owner ==>
      UpdateMemberRole(t, memberId, role, now) == Step(t, Err(Error(Forbidden, "Cannot change role of the last owner")))
    ensures RemoveMember(t, memberId, now) == Step(t, Err(Error(Forbidden, "Cannot remove the last owner of the workspace")))
  {
    assert memberId in ActiveOwners(t.members, t.members[memberId].workspaceId);
  }

  /** A creator who is logged in, with a free workspace id and an acceptable row, becomes
      the workspace's one active owner and sees it listed with the owner role. */
  lemma {:induction false} CreatedWorkspaceIsOwned(t: Tables, caller: Option<Uuid>, input: CreateWorkspaceInput,
                                                   workspaceId: Uuid, memberId: Uuid, now: nat)
    requires Valid(t)
    requires CreateWorkspace(t, caller, input, workspaceId, memberId, now).result.Ok?
    ensures var s := CreateWorkspace(t, caller, input, workspaceId, memberId, now);
      && CallerPresent(caller)
      && s.result.value.role == Owner
      && s.result.value.permissions == Rbac.AllPermissions
      && s.result.value.workspace.createdBy == caller.value
      && ActiveOwners(s.tables.members, workspaceId) == {memberId}
      && UserWorkspace(s.result.value.workspace, Owner) in GetUserWorkspaces(s.tables, caller).value
  {
    var s := CreateWorkspace(t, caller, input, workspaceId, memberId, now);
    Rbac.RolePermissionsTable();
    assert ListedFor(s.tables, memberId, caller.value);
    forall id | id in ActiveOwners(s.tables.members, workspaceId) ensures id == memberId {
    }
  }

  /** Every mutation keeps the database's constraints. */
  lemma {:induction false} CreateWorkspaceKeepsValid(t: Tables, caller: Option<Uuid>, input: CreateWorkspaceInput,
                                                     workspaceId: Uuid, memberId: Uuid, now: nat)
    requires Valid(t)
    ensures Valid(CreateWorkspace(t, caller, input, workspaceId, memberId, now).tables)
  {
    var s := CreateWorkspace(t, caller, input, workspaceId, memberId, now);
    if s.result.Ok? {
      var w := InsertedWorkspace(workspaceId, input.name, input.slug, input.description, caller.value, now);
      var m := InsertedMember(memberId, workspaceId, caller.value, Some(Owner), now);
      WriteKeepsUniqueSlugs(t.workspaces, w);
      InsertKeepsUniqueMemberships(t.members, m);
      assert WorkspacesOk(s.tables);
      assert MembersOk(s.tables);
      assert InvitationsOk(s.tables);
    }
  }

  lemma {:induction false} UpdateMemberRoleKeepsValid(t: Tables, memberId: Uuid, role: Role, now: nat)
    requires Valid(t)
    ensures Valid(UpdateMemberRole(t, memberId, role, now).tables)
  {
    var s := UpdateMemberRole(t, memberId, role, now);
    if s.result.Ok? {
      SamePairKeepsUniqueMemberships(t.members, s.result.value);
      assert MembersOk(s.tables);
    }
  }

  lemma {:induction false} RemoveMemberKeepsValid(t: Tables, memberId: Uuid, now: nat)
    requires Valid(t)
    ensures Valid(RemoveMember(t, memberId, now).tables)
  {
    var s := RemoveMember(t, memberId, now);
    if s.result.Ok? {
      SamePairKeepsUniqueMemberships(t.members, s.result.value);
      assert MembersOk(s.tables);
    }
  }

  lemma {:induction false} UpdateWorkspaceKeepsValid(t: Tables, caller: Uuid, input: UpdateWorkspaceInput, now: nat)
    requires Valid(t)
    ensures Valid(UpdateWorkspace(t, caller, input, now).tables)
  {
    var s := UpdateWorkspace(t, caller, input, now);
    if s.result.Ok? && s.result.value.Some? {
      var w' := s.result.value.value;
      WriteKeepsUniqueSlugs(t.workspaces, w');
      assert WorkspacesOk(s.tables);
      assert MembersOk(s.tables);
      assert InvitationsOk(s.tables);
    }
  }

  lemma {:induction false} CreateInvitationKeepsValid(t: Tables, caller: Option<Uuid>, input: CreateInvitationInput,
                                                      invitationId: Uuid, now: nat)
    requires Valid(t)
    ensures Valid(CreateInvitation(t, caller, input, invitationId, now).tables)
  {
    var s := CreateInvitation(t, caller, input, invitationId, now);
    if s.result.Ok? {
      InsertKeepsUniqueInvitations(t.invitations, s.result.value);
      assert InvitationsOk(s.tables);
    }
  }

  lemma {:induction false} RevokeInvitationKeepsValid(t: Tables, invitationId: Uuid)
    requires Valid(t)
    ensures Valid(RevokeInvitation(t, invitationId).tables)
  {
    var s := RevokeInvitation(t, invitationId);
    assert InvitationsOk(s.tables);
  }

  lemma {:induction false} AcceptInvitationKeepsValid(t: Tables, caller: Option<Uuid>, invitationId: Uuid, memberId: Uuid, now: nat)
    requires Valid(t)
    ensures Valid(AcceptInvitation(t, caller, invitationId, memberId, now).tables)
  {
    var s := AcceptInvitation(t, caller, invitationId, memberId, now);
    if s.result.Ok? {
      var v := t.invitations[invitationId];
      InsertKeepsUniqueMemberships(t.members, InsertedMember(memberId, v.workspaceId, caller.value, Some(v.role), now));
      assert MembersOk(s.tables);
      assert InvitationsOk(s.tables);
    }
  }

  /** Whoever accepts an invitation joins its workspace with the invited role: the
      workspace is listed for them (unless it is deleted) and the invitation is gone.
      Neither its email, its status nor its expiry is consulted. */
  lemma {:induction false} AcceptedWorkspaceIsListed(t: Tables, caller: Option<Uuid>, invitationId: Uuid, memberId: Uuid, now: nat)
    requires AcceptInvitation(t, caller, invitationId, memberId, now).result.Ok?
    ensures var s := AcceptInvitation(t, caller, invitationId, memberId, now);
      var v := t.invitations[invitationId];
      && s.result.value.role == v.role
      && s.result.value.permissions == Rbac.RolePermissions(v.role)
      && invitationId !in s.tables.invitations
      && (t.workspaces[v.workspaceId].deletedAt.None? ==>
            UserWorkspace(t.workspaces[v.workspaceId], v.role) in GetUserWorkspaces(s.tables, caller).value)
  {
    var s := AcceptInvitation(t, caller, invitationId, memberId, now);
    var v := t.invitations[invitationId];
    if t.workspaces[v.workspaceId].deletedAt.None? {
      assert ListedFor(s.tables, memberId, caller.value);
    }
  }

  /** Acceptance holds for any invitation row: a logged-in caller with no membership row
      in the workspace joins it even when the invitation is expired, declined or addressed
      to a different email. */
  lemma AcceptIgnoresEmailAndExpiry(t: Tables, caller: Uuid, invitationId: Uuid, memberId: Uuid, now: nat)
    requires caller != ""
    requires invitationId in t.invitations && t.invitations[invitationId].workspaceId in t.workspaces
    requires MemberInsertOk(t, InsertedMember(memberId, t.invitations[invitationId].workspaceId, caller, Some(t.invitations[invitationId].role), now))
    ensures AcceptInvitation(t, Some(caller), invitationId, memberId, now).result.Ok?
  {
  }

  /** A removed member cannot rejoin through an invitation: their soft-deleted row still
      holds the (workspace, user) pair, so the insert fails and nothing changes. */
  lemma {:induction false} RemovedMemberCannotRejoin(t: Tables, memberId: Uuid, now: nat,
                                                     invitationId: Uuid, newMemberId: Uuid, later: nat)
    requires RemoveMember(t, memberId, now).result.Ok?
    requires var t1 := RemoveMember(t, memberId, now).tables;
      invitationId in t1.invitations && t1.invitations[invitationId].workspaceId == t.members[memberId].workspaceId
    ensures var t1 := RemoveMember(t, memberId, now).tables;
      AcceptInvitation(t1, Some(t.members[memberId].userId), invitationId, newMemberId, later)
        == (if CallerPresent(Some(t.members[memberId].userId)) && t.members[memberId].workspaceId in t1.workspaces
            then Step(t1, Err(Error(InternalServerError, DatabaseError)))
            else AcceptInvitation(t1, Some(t.members[memberId].userId), invitationId, newMemberId, later))
  {
    var t1 := RemoveMember(t, memberId, now).tables;
    var m := t.members[memberId];
    assert t1.members[memberId].workspaceId == m.workspaceId && t1.members[memberId].userId == m.userId;
    assert MembershipRowExists(t1.members, m.workspaceId, m.userId);
  }

  /** Once removed, the member's workspace drops out of their listing. */
  lemma {:induction false} RemovedMemberIsUnlisted(t: Tables, memberId: Uuid, now: nat)
    requires Valid(t)
    requires RemoveMember(t, memberId, now).result.Ok?
    requires t.members[memberId].userId != ""
    ensures var s := RemoveMember(t, memberId, now);
      forall u :: u in GetUserWorkspaces(s.tables, Some(t.members[memberId].userId)).value ==>
        u.workspace.id != t.members[memberId].workspaceId
  {
    var s := RemoveMember(t, memberId, now);
    var m := t.members[memberId];
    forall u | u in GetUserWorkspaces(s.tables, Some(m.userId)).value
      ensures u.workspace.id != m.workspaceId
    {
      var id :| id in s.tables.members && ListedFor(s.tables, id, m.userId)
                && u == UserWorkspace(s.tables.workspaces[s.tables.members[id].workspaceId], s.tables.members[id].role);
      assert id != memberId;
      assert id in t.members && t.members[id] == s.tables.members[id];
      assert t.members[id].workspaceId != m.workspaceId;
      assert s.tables.workspaces[t.members[id].workspaceId].id == t.members[id].workspaceId;
    }
  }

  /** An invitation is listed for its workspace until it is revoked; a second invitation
      to the same email is refused while the first is pending. */
  lemma {:induction false} InvitationLifecycle(t: Tables, caller: Option<Uuid>, input: CreateInvitationInput,
                                               invitationId: Uuid, now: nat, otherId: Uuid, role: Role, later: nat)
    requires CreateInvitation(t, caller, input, invitationId, now).result.Ok?
    requires role != Owner
    ensures var s := CreateInvitation(t, caller, input, invitationId, now);
      var v := s.result.value;
      && v.status == Pending && v.email == input.email && v.role == input.role
      && v.expiresAt == now + InvitationLifetime && v.invitedBy == caller
      && ViewOf(s.tables, v) in GetWorkspaceInvitations(s.tables, input.workspaceId)
      && CreateInvitation(s.tables, caller, input.(role := role), otherId, later).result
           == Err(Error(Conflict, "An invitation for this email already exists"))
      && ViewOf(s.tables, v) !in GetWorkspaceInvitations(RevokeInvitation(s.tables, invitationId).tables, input.workspaceId)
  {
    var s := CreateInvitation(t, caller, input, invitationId, now);
    var v := s.result.value;
    assert invitationId in s.tables.invitations && s.tables.invitations[invitationId] == v;
    assert PendingInvitationExists(s.tables, input.workspaceId, input.email);
  }

  /** An issued invitation reaches the inbox of a profile holding the invited email while
      its workspace is live; once that invitee accepts it, it leaves the inbox. */
  lemma {:induction false} InvitationReachesInbox(t: Tables, caller: Option<Uuid>, input: CreateInvitationInput,
                                                  invitationId: Uuid, now: nat, invitee: Uuid, memberId: Uuid, later: nat)
    requires Valid(t)
    requires CreateInvitation(t, caller, input, invitationId, now).result.Ok?
    requires invitee != "" && invitee in t.profiles && t.profiles[invitee].email == Some(input.email) && input.email != ""
    requires input.workspaceId in t.workspaces && t.workspaces[input.workspaceId].deletedAt.None?
    ensures var s := CreateInvitation(t, caller, input, invitationId, now);
      var w := t.workspaces[input.workspaceId];
      var inbox := GetUserInvitations(s.tables, Some(invitee));
      inbox.Ok? && UserInvitation(s.result.value, WorkspaceSummary(w.id, w.name, w.slug)) in inbox.value
    ensures var s := CreateInvitation(t, caller, input, invitationId, now);
      var a := AcceptInvitation(s.tables, Some(invitee), invitationId, memberId, later);
      var inbox := GetUserInvitations(a.tables, Some(invitee));
      a.result.Ok? ==> inbox.Ok? && forall u :: u in inbox.value ==> u.invitation.id != invitationId
  {
    var s := CreateInvitation(t, caller, input, invitationId, now);
    assert InvitedAs(s.tables, invitationId, input.email);
    CreateInvitationKeepsValid(t, caller, input, invitationId, now);
    AcceptInvitationKeepsValid(s.tables, Some(invitee), invitationId, memberId, later);
    var a := AcceptInvitation(s.tables, Some(invitee), invitationId, memberId, later);
    if a.result.Ok? {
      forall u | u in GetUserInvitations(a.tables, Some(invitee)).value
        ensures u.invitation.id != invitationId
      {
        var id :| id in a.tables.invitations && InvitedAs(a.tables, id, input.email)
                  && u.invitation == a.tables.invitations[id];
        assert id != invitationId;
      }
    }
  }

  /** The members listing follows the two member operations: a changed role shows up in
      it and a removed member leaves it. */
  lemma MemberListingFollowsChanges(t: Tables, memberId: Uuid, role: Role, now: nat)
    ensures var s := UpdateMemberRole(t, memberId, role, now);
      s.result.Ok? && t.members[memberId].deletedAt.None? && t.members[memberId].userId in t.profiles ==>
        var m := t.members[memberId];
        var p := t.profiles[m.userId];
        MemberView(memberId, m.userId, role, p.name, p.email) in GetWorkspaceMembers(s.tables, m.workspaceId)
    ensures var s := RemoveMember(t, memberId, now);
      s.result.Ok? ==>
        forall v :: v in GetWorkspaceMembers(s.tables, t.members[memberId].workspaceId) ==> v.id != memberId
  {
    var s := UpdateMemberRole(t, memberId, role, now);
    if s.result.Ok? && t.members[memberId].deletedAt.None? && t.members[memberId].userId in t.profiles {
      assert s.tables.members[memberId].role == role;
    }
  }

  /** The caller's listing holds exactly the live workspaces in which the caller has an
      active membership, each with that membership's role; a signed-out caller is refused. */
  lemma UserWorkspacesListing(t: Tables, caller: Option<Uuid>)
    requires Valid(t)
    ensures !CallerPresent(caller) <==> GetUserWorkspaces(t, caller).Err?
    ensures CallerPresent(caller) ==> forall u :: u in GetUserWorkspaces(t, caller).value <==>
      && u.workspace.id in t.workspaces && t.workspaces[u.workspace.id] == u.workspace
      && u.workspace.deletedAt.None?
      && HoldsActiveRole(t.members, u.workspace.id, caller.value, {u.role})
  {
    if CallerPresent(caller) {
      var uid := caller.value;
      forall u ensures u in GetUserWorkspaces(t, caller).value <==>
        && u.workspace.id in t.workspaces && t.workspaces[u.workspace.id] == u.workspace
        && u.workspace.deletedAt.None?
        && HoldsActiveRole(t.members, u.workspace.id, uid, {u.role})
      {
        if u in GetUserWorkspaces(t, caller).value {
          var id :| id in t.members && ListedFor(t, id, uid)
                    && u == UserWorkspace(t.workspaces[t.members[id].workspaceId], t.members[id].role);
          assert t.workspaces[t.members[id].workspaceId].id == t.members[id].workspaceId;
          assert t.members[id].role in {u.role};
        }
        if && u.workspace.id in t.workspaces && t.workspaces[u.workspace.id] == u.workspace
           && u.workspace.deletedAt.None? && HoldsActiveRole(t.members, u.workspace.id, uid, {u.role}) {
          var id :| id in t.members && t.members[id].workspaceId == u.workspace.id && t.members[id].userId == uid
                    && t.members[id].deletedAt.None? && t.members[id].role in {u.role};
          assert ListedFor(t, id, uid);
        }
      }
    }
  }

  /** The settings gate: a caller without an active owner or admin membership is refused
      FORBIDDEN before the slug is looked at, and an active admin who is not an owner (so
      the row policy would refuse the write) passes it. */
  lemma UpdateWorkspaceGate(t: Tables, caller: Uuid, input: UpdateWorkspaceInput, now: nat)
    requires input.name != "" && (input.slug.None? || input.slug.value != "")
    ensures !MayEditSettings(t, input.id, caller) ==>
      UpdateWorkspace(t, caller, input, now) == Fail(t, Forbidden, "You don't have permission to update this workspace")
    ensures HoldsActiveRole(t.members, input.id, caller, {Admin}) ==>
      && MayEditSettings(t, input.id, caller)
      && var r := UpdateWorkspace(t, caller, input, now).result;
         !(r.Err? && r.error.code == Forbidden)
  {
    if HoldsActiveRole(t.members, input.id, caller, {Admin}) {
      var id :| id in t.members && t.members[id].workspaceId == input.id && t.members[id].userId == caller
                 && t.members[id].deletedAt.None? && t.members[id].role in {Admin};
      assert t.members[id].role in {Owner, Admin};
    }
  }

  /** A role change or removal of a membership that does not exist fails NOT_FOUND and
      changes nothing. */
  lemma MissingMemberIsNotFound(t: Tables, memberId: Uuid, role: Role, now: nat)
    ensures memberId !in t.members ==>
      && UpdateMemberRole(t, memberId, role, now) == Fail(t, NotFound, "Member not found")
      && RemoveMember(t, memberId, now) == Fail(t, NotFound, "Member not found")
  {
  }

  /** Revoking or accepting an invitation that does not exist fails NOT_FOUND and changes
      nothing. */
  lemma MissingInvitationIsNotFound(t: Tables, invitationId: Uuid, caller: Option<Uuid>, newMemberId: Uuid, now: nat)
    ensures invitationId !in t.invitations ==>
      RevokeInvitation(t, invitationId) == Fail(t, NotFound, "Invitation not found")
    ensures CallerPresent(caller) && invitationId !in t.invitations ==>
      AcceptInvitation(t, caller, invitationId, newMemberId, now) == Fail(t, NotFound, "Invitation not found")
  {
  }

  /** createInvitation's two conflicts, in the order the router checks them: a pending
      invitation for the email, then an active member whose profile has the email. */
  lemma InvitationConflicts(t: Tables, caller: Uuid, input: CreateInvitationInput, invitationId: Uuid, now: nat)
    requires input.role != Owner && caller != ""
    ensures PendingInvitationExists(t, input.workspaceId, input.email) ==>
      CreateInvitation(t, Some(caller), input, invitationId, now) == Fail(t, Conflict, "An invitation for this email already exists")
    ensures !PendingInvitationExists(t, input.workspaceId, input.email) && ActiveMemberWithEmail(t, input.workspaceId, input.email) ==>
      CreateInvitation(t, Some(caller), input, invitationId, now) == Fail(t, Conflict, "This user is already a member of the workspace")
  {
  }

  /** The router lets an active admin edit the workspace's settings, where the row-level
      policy on the table admits owners only; a soft-deleted workspace's slug passes the
      router's conflict check and is then refused by the unique constraint. */
  lemma SettingsGateAndSlugs(t: Tables, caller: Uuid, input: UpdateWorkspaceInput, now: nat, holder: Uuid)
    requires input.name != "" && |input.name| <= WorkspaceNameMaxLength && input.slug.Some? && input.slug.value != ""
    requires MayEditSettings(t, input.id, caller) && input.id in t.workspaces
    requires holder in t.workspaces && holder != input.id && t.workspaces[holder].slug == input.slug
    ensures t.workspaces[holder].deletedAt.Some? && !SlugInUse(t, input.slug.value, input.id) ==>
      UpdateWorkspace(t, caller, input, now) == Step(t, Err(Error(InternalServerError, DatabaseError)))
    ensures t.workspaces[holder].deletedAt.None? ==>
      UpdateWorkspace(t, caller, input, now) == Step(t, Err(Error(Conflict, "A workspace with this slug already exists")))
  {
    assert SlugHeld(t.workspaces, input.slug.value, input.id);
  }
}

/** The workspace router as a service whose fields are the tables it writes. */
module WorkspaceRouter {
  import opened Common
  import opened WorkspacesSchema
  import opened ProfilesSchema
  import Rbac
  import Spec = WorkspaceSpec

  class WorkspaceService {
    var workspaces: map<Uuid, Workspace>
    var members: map<Uuid, WorkspaceMember>
    var invitations: map<Uuid, WorkspaceInvitation>
    var profiles: map<Uuid, Profile>

    function Db(): Spec.Tables
      reads this
    {
      Spec.Tables(workspaces, members, invitations, profiles)
    }

    ghost predicate Valid()
      reads this
    {
      Spec.Valid(Db())
    }

    constructor (initial: Spec.Tables)
      requires Spec.Valid(initial)
      ensures Valid() && Db() == initial
    {
      workspaces := initial.workspaces;
      members := initial.members;
      invitations := initial.invitations;
      profiles := initial.profiles;
    }

    /** Insert the workspace, then the owner membership; a failed second insert rolls the
        first one back. */
    method CreateWorkspace(caller: Option<Uuid>, input: Spec.CreateWorkspaceInput,
                           workspaceId: Uuid, memberId: Uuid, now: nat) returns (r: Result<Spec.Granted>)
      requires Valid()
      modifies this
      ensures Valid()
      ensures Db() == Spec.CreateWorkspace(old(Db()), caller, input, workspaceId, memberId, now).tables
      ensures r == Spec.CreateWorkspace(old(Db()), caller, input, workspaceId, memberId, now).result
    {
      Spec.CreateWorkspaceKeepsValid(Db(), caller, input, workspaceId, memberId, now);
      if !Spec.CallerPresent(caller) {
        return Err(Error(Unauthorized, "You must be logged in to create a workspace"));
      }
      var saved := workspaces;
      var w := InsertedWorkspace(workspaceId, input.name, input.slug, input.description, caller.value, now);
      if !Spec.WorkspaceInsertOk(Db(), w) {
        return Err(Error(InternalServerError, Spec.DatabaseError));
      }
      workspaces := workspaces[workspaceId := w];
      var m := InsertedMember(memberId, workspaceId, caller.value, Some(Owner), now);
      if !Spec.MemberInsertOk(Db(), m) {
        workspaces := saved;
        return Err(Error(InternalServerError, Spec.DatabaseError));
      }
      members := members[memberId := m];
      r := Ok(Spec.Granted(w, Owner, Rbac.RolePermissions(Owner)));
    }

    method UpdateMemberRole(memberId: Uuid, role: Role, now: nat) returns (r: Result<WorkspaceMember>)
      requires Valid()
      modifies this
      ensures Valid()
      ensures Db() == Spec.UpdateMemberRole(old(Db()), memberId, role, now).tables
      ensures r == Spec.UpdateMemberRole(old(Db()), memberId, role, now).result
    {
      Spec.UpdateMemberRoleKeepsValid(Db(), memberId, role, now);
      if memberId !in members {
        return Err(Error(NotFound, "Member not found"));
      }
      var m := members[memberId];
      if m.role == Owner && role != Owner {
        var ownerCount := |Spec.ActiveOwners(members, m.workspaceId)|;
        if ownerCount <= 1 {
          return Err(Error(Forbidden, "Cannot change role of the last owner"));
        }
      }
      var m' := m.(role := role, updatedAt := now);
      members := members[memberId := m'];
      r := Ok(m');
    }

    method RemoveMember(memberId: Uuid, now: nat) returns (r: Result<WorkspaceMember>)
      requires Valid()
      modifies this
      ensures Valid()
      ensures Db() == Spec.RemoveMember(old(Db()), memberId, now).tables
      ensures r == Spec.RemoveMember(old(Db()), memberId, now).result
    {
      Spec.RemoveMemberKeepsValid(Db(), memberId, now);
      if memberId !in members {
        return Err(Error(NotFound, "Member not found"));
      }
      var m := members[memberId];
      if m.role == Owner {
        var ownerCount := |Spec.ActiveOwners(members, m.workspaceId)|;
        if ownerCount <= 1 {
          return Err(Error(Forbidden, "Cannot remove the last owner of the workspace"));
        }
      }
      var m' := m.(deletedAt := Some(now), updatedAt := now);
      members := members[memberId := m'];
      r := Ok(m');
    }

    method UpdateWorkspace(caller: Uuid, input: Spec.UpdateWorkspaceInput, now: nat) returns (r: Result<Option<Workspace>>)
      requires Valid()
      modifies this
      ensures Valid()
      ensures Db() == Spec.UpdateWorkspace(old(Db()), caller, input, now).tables
      ensures r == Spec.UpdateWorkspace(old(Db()), caller, input, now).result
    {
      Spec.UpdateWorkspaceKeepsValid(Db(), caller, input, now);
      if input.name == "" || (input.slug.Some? && input.slug.value == "") {
        return Err(Error(BadRequest, "invalid input"));
      }
      if !HoldsActiveRole(members, input.id, caller, {Owner, Admin}) {
        return Err(Error(Forbidden, "You don't have permission to update this workspace"));
      }
      if input.slug.Some? && Spec.SlugInUse(Db(), input.slug.value, input.id) {
        return Err(Error(Conflict, "A workspace with this slug already exists"));
      }
      if input.id !in workspaces {
        return Ok(None);
      }
      var w' := Spec.EditedWorkspace(workspaces[input.id], input, now);
      if |w'.name| > WorkspaceNameMaxLength || (w'.slug.Some? && SlugHeld(workspaces, w'.slug.value, input.id)) {
        return Err(Error(InternalServerError, Spec.DatabaseError));
      }
      workspaces := workspaces[input.id := w'];
      r := Ok(Some(w'));
    }

    method CreateInvitation(caller: Option<Uuid>, input: Spec.CreateInvitationInput, invitationId: Uuid, now: nat)
      returns (r: Result<WorkspaceInvitation>)
      requires Valid()
      modifies this
      ensures Valid()
      ensures Db() == Spec.CreateInvitation(old(Db()), caller, input, invitationId, now).tables
      ensures r == Spec.CreateInvitation(old(Db()), caller, input, invitationId, now).result
    {
      Spec.CreateInvitationKeepsValid(Db(), caller, input, invitationId, now);
      if input.role == Owner {
        return Err(Error(BadRequest, "invalid input"));
      }
      if !Spec.CallerPresent(caller) {
        return Err(Error(Unauthorized, "You must be logged in to create invitations"));
      }
      if Spec.PendingInvitationExists(Db(), input.workspaceId, input.email) {
        return Err(Error(Conflict, "An invitation for this email already exists"));
      }
      if Spec.ActiveMemberWithEmail(Db(), input.workspaceId, input.email) {
        return Err(Error(Conflict, "This user is already a member of the workspace"));
      }
      var v := InsertedInvitation(invitationId, input.workspaceId, input.email, Some(input.role), Some(Pending),
                                  Some(caller.value), now + Spec.InvitationLifetime, now);
      if !Spec.InvitationInsertOk(Db(), v) {
        return Err(Error(InternalServerError, Spec.DatabaseError));
      }
      invitations := invitations[invitationId := v];
      r := Ok(v);
    }

    method RevokeInvitation(invitationId: Uuid) returns (r: Result<WorkspaceInvitation>)
      requires Valid()
      modifies this
      ensures Valid()
      ensures Db() == Spec.RevokeInvitation(old(Db()), invitationId).tables
      ensures r == Spec.RevokeInvitation(old(Db()), invitationId).result
    {
      Spec.RevokeInvitationKeepsValid(Db(), invitationId);
      if invitationId !in invitations {
        return Err(Error(NotFound, "Invitation not found"));
      }
      var deleted := invitations[invitationId];
      invitations := invitations - {invitationId};
      r := Ok(deleted);
    }

    /** Read the invitation with its workspace, insert the membership, then delete the
        invitation, in one transaction. */
    method AcceptInvitation(caller: Option<Uuid>, invitationId: Uuid, memberId: Uuid, now: nat) returns (r: Result<Spec.Granted>)
      requires Valid()
      modifies this
      ensures Valid()
      ensures Db() == Spec.AcceptInvitation(old(Db()), caller, invitationId, memberId, now).tables
      ensures r == Spec.AcceptInvitation(old(Db()), caller, invitationId, memberId, now).result
    {
      Spec.AcceptInvitationKeepsValid(Db(), caller, invitationId, memberId, now);
      if !Spec.CallerPresent(caller) {
        return Err(Error(Unauthorized, "You must be logged in to accept invitations"));
      }
      if invitationId !in invitations || invitations[invitationId].workspaceId !in workspaces {
        return Err(Error(NotFound, "Invitation not found"));
      }
      var invitation := invitations[invitationId];
      var workspace := workspaces[invitation.workspaceId];
      var m := InsertedMember(memberId, invitation.workspaceId, caller.value, Some(invitation.role), now);
      if !Spec.MemberInsertOk(Db(), m) {
        return Err(Error(InternalServerError, Spec.DatabaseError));
      }
      members := members[memberId := m];
      invitations := invitations - {invitationId};
      r := Ok(Spec.Granted(workspace, m.role, Rbac.RolePermissions(m.role)));
    }
  }
}
