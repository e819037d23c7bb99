/** The workspace tables: roles and invitation statuses, the three row types with their
    column defaults, the constraints the database enforces on them, and the row-level
    security policies, as predicates. */
module WorkspacesSchema {
  import opened Common

  /** The `workspace_role` enum. */
  datatype Role = Owner | Admin | Member

  /** `Object.values(ROLES)`, in declaration order. */
  const AllRoles: seq<Role> := [Owner, Admin, Member]

  function RoleName(r: Role): string
  {
    match r
    case Owner => "owner"
    case Admin => "admin"
    case Member => "member"
  }

  /** What the enum column accepts: exactly the three role names. */
  function ParseRole(s: string): (r: Option<Role>)
    ensures r.Some? ==> RoleName(r.value) == s
  {
    if s == "owner" then Some(Owner)
    else if s == "admin" then Some(Admin)
    else if s == "member" then Some(Member)
    else None
  }

  /** The enum admits exactly the three names, and its values are exactly the three roles. */
  lemma RoleNamesRoundTrip(r: Role, s: string)
    ensures ParseRole(RoleName(r)) == Some(r)
    ensures ParseRole(s).Some? <==> s in {"owner", "admin", "member"}
    ensures forall x: Role :: x in AllRoles
  {
    forall x: Role ensures x in AllRoles {
      match x
      case Owner => assert AllRoles[0] == x;
      case Admin => assert AllRoles[1] == x;
      case Member => assert AllRoles[2] == x;
    }
  }

  /** The `invitation_status` enum. */
  datatype InvitationStatus = Pending | Accepted | Declined | Expired

  const DefaultInvitationStatus: InvitationStatus := Pending

  function StatusName(st: InvitationStatus): string
  {
    match st
    case Pending => "pending"
    case Accepted => "accepted"
    case Declined => "declined"
    case Expired => "expired"
  }

  function ParseStatus(s: string): (r: Option<InvitationStatus>)
    ensures r.Some? ==> StatusName(r.value) == s
  {
    if s == "pending" then Some(Pending)
    else if s == "accepted" then Some(Accepted)
    else if s == "declined" then Some(Declined)
    else if s == "expired" then Some(Expired)
    else None
  }

  lemma StatusNamesRoundTrip(st: InvitationStatus, s: string)
    ensures ParseStatus(StatusName(st)) == Some(st)
    ensures ParseStatus(s).Some? <==> s in {"pending", "accepted", "declined", "expired"}
  {
  }

  /** `varchar(100)` on workspaces.name and `varchar(255)` on invitation emails. */
  const WorkspaceNameMaxLength: nat := 100
  const InvitationEmailMaxLength: nat := 255

  /** A `workspaces` row. Times are milliseconds on one clock; deletedAt = None means active. */
  datatype Workspace = Workspace(
    id: Uuid,
    name: string,
    slug: Option<string>,
    description: Option<string>,
    createdBy: Uuid,
    createdAt: nat,
    updatedAt: nat,
    deletedAt: Option<nat>,
    role: Role)

  /** A `workspace_members` row; removal only soft-deletes it. */
  datatype WorkspaceMember = WorkspaceMember(
    id: Uuid,
    workspaceId: Uuid,
    userId: Uuid,
    role: Role,
    createdAt: nat,
    updatedAt: nat,
    deletedAt: Option<nat>)

  /** A `workspace_invitations` row; it is deleted, never soft-deleted. */
  datatype WorkspaceInvitation = WorkspaceInvitation(
    id: Uuid,
    workspaceId: Uuid,
    email: string,
    role: Role,
    status: InvitationStatus,
    invitedBy: Option<Uuid>,
    expiresAt: nat,
    createdAt: nat,
    updatedAt: nat)

  /** The row an insert of the given columns produces: the `role` column defaults to
      member, the timestamps to now, deletedAt to null. */
  function InsertedWorkspace(id: Uuid, name: string, slug: Option<string>, description: Option<string>,
                             createdBy: Uuid, now: nat): (w: Workspace)
    ensures w.role == Member && w.deletedAt == None && w.createdAt == w.updatedAt == now
    ensures w.id == id && w.name == name && w.slug == slug && w.description == description && w.createdBy == createdBy
  {
    Workspace(id, name, slug, description, createdBy, now, now, None, Member)
  }

  /** A membership insert; the role defaults to member when not supplied. */
  function InsertedMember(id: Uuid, workspaceId: Uuid, userId: Uuid, role: Option<Role>, now: nat): (m: WorkspaceMember)
    ensures m.role == (if role.Some? then role.value else Member)
    ensures m.deletedAt == None && m.createdAt == m.updatedAt == now
    ensures m.id == id && m.workspaceId == workspaceId && m.userId == userId
  {
    WorkspaceMember(id, workspaceId, userId, if role.Some? then role.value else Member, now, now, None)
  }

  /** An invitation insert; role defaults to member and status to pending. expiresAt has no
      default, so every insert supplies it. */
  function InsertedInvitation(id: Uuid, workspaceId: Uuid, email: string, role: Option<Role>,
                              status: Option<InvitationStatus>, invitedBy: Option<Uuid>,
                              expiresAt: nat, now: nat): (v: WorkspaceInvitation)
    ensures v.role == (if role.Some? then role.value else Member)
    ensures v.status == (if status.Some? then status.value else Pending)
    ensures v.expiresAt == expiresAt && v.createdAt == v.updatedAt == now
    ensures v.id == id && v.workspaceId == workspaceId && v.email == email && v.invitedBy == invitedBy
  {
    WorkspaceInvitation(id, workspaceId, email, if role.Some? then role.value else Member,
                        if status.Some? then status.value else DefaultInvitationStatus,
                        invitedBy, expiresAt, now, now)
  }

  predicate IsActiveMember(m: WorkspaceMember)
  {
    m.deletedAt.None?
  }

  // ---- Constraints the database enforces ----

  /** `unique_workspace_slug`: no two rows share a slug; as in SQL, null slugs never clash,
      and soft-deleted rows still hold theirs. */
  predicate UniqueSlugs(ws: map<Uuid, Workspace>)
  {
    forall a, b :: a in ws && b in ws && a != b && ws[a].slug.Some? ==> ws[a].slug != ws[b].slug
  }

  /** Some row other than `except` already holds `slug`. */
  predicate SlugHeld(ws: map<Uuid, Workspace>, slug: string, except: Uuid)
  {
    exists id :: id in ws && id != except && ws[id].slug == Some(slug)
  }

  /** `unique_workspace_member`: at most one row per (workspace, user), soft-deleted rows included. */
  predicate UniqueMemberships(ms: map<Uuid, WorkspaceMember>)
  {
    forall a, b :: a in ms && b in ms && a != b ==>
      ms[a].workspaceId != ms[b].workspaceId || ms[a].userId != ms[b].userId
  }

  /** Some row, removed or not, already binds `userId` to `workspaceId`. */
  predicate MembershipRowExists(ms: map<Uuid, WorkspaceMember>, workspaceId: Uuid, userId: Uuid)
  {
    exists id :: id in ms && ms[id].workspaceId == workspaceId && ms[id].userId == userId
  }

  /** `unique_workspace_invitation`: at most one row per (workspace, email), whatever its status. */
  predicate UniqueInvitations(vs: map<Uuid, WorkspaceInvitation>)
  {
    forall a, b :: a in vs && b in vs && a != b ==>
      vs[a].workspaceId != vs[b].workspaceId || vs[a].email != vs[b].email
  }

  predicate InvitationRowExists(vs: map<Uuid, WorkspaceInvitation>, workspaceId: Uuid, email: string)
  {
    exists id :: id in vs && vs[id].workspaceId == workspaceId && vs[id].email == email
  }

  /** The membership rows a row insert for `userId` would collide with, and the uniqueness lemma:
      inserting a row for a pair that has none keeps the constraint. */
  lemma {:induction false} InsertKeepsUniqueMemberships(ms: map<Uuid, WorkspaceMember>, m: WorkspaceMember)
    requires UniqueMemberships(ms)
    requires m.id !in ms && !MembershipRowExists(ms, m.workspaceId, m.userId)
    ensures UniqueMemberships(ms[m.id := m])
  {
    var ms' := ms[m.id := m];
    forall a, b | a in ms' && b in ms' && a != b
      ensures ms'[a].workspaceId != ms'[b].workspaceId || ms'[a].userId != ms'[b].userId
    {
      if a == m.id {
        assert b in ms && ms[b] == ms'[b];
      } else if b == m.id {
        assert a in ms && ms[a] == ms'[a];
      }
    }
  }

  /** Writing row `m` over the row with the same id keeps the constraint when the
      (workspace, user) pair does not change. */
  lemma SamePairKeepsUniqueMemberships(ms: map<Uuid, WorkspaceMember>, m: WorkspaceMember)
    requires UniqueMemberships(ms)
    requires m.id in ms && ms[m.id].workspaceId == m.workspaceId && ms[m.id].userId == m.userId
    ensures UniqueMemberships(ms[m.id := m])
  {
    var ms' := ms[m.id := m];
    forall a, b | a in ms' && b in ms' && a != b
      ensures ms'[a].workspaceId != ms'[b].workspaceId || ms'[a].userId != ms'[b].userId
    {
      assert a in ms && b in ms;
      assert ms'[a].workspaceId == ms[a].workspaceId && ms'[a].userId == ms[a].userId;
      assert ms'[b].workspaceId == ms[b].workspaceId && ms'[b].userId == ms[b].userId;
    }
  }

  /** Writing workspace row `w` (new or replacing its own row) keeps slugs unique when no
      other row holds its slug. */
  lemma WriteKeepsUniqueSlugs(ws: map<Uuid, Workspace>, w: Workspace)
    requires UniqueSlugs(ws)
    requires w.slug.Some? ==> !SlugHeld(ws, w.slug.value, w.id)
    ensures UniqueSlugs(ws[w.id := w])
  {
    var ws' := ws[w.id := w];
    forall a, b | a in ws' && b in ws' && a != b && ws'[a].slug.Some?
      ensures ws'[a].slug != ws'[b].slug
    {
      if a == w.id {
        assert b in ws && ws'[b] == ws[b];
      } else if b == w.id {
        assert a in ws && ws'[a] == ws[a];
        if w.slug.Some? {
          assert !(a in ws && a != w.id && ws[a].slug == Some(w.slug.value));
        }
      }
    }
  }

  /** Inserting an invitation for a (workspace, email) pair that has none keeps the constraint. */
  lemma InsertKeepsUniqueInvitations(vs: map<Uuid, WorkspaceInvitation>, v: WorkspaceInvitation)
    requires UniqueInvitations(vs)
    requires v.id !in vs && !InvitationRowExists(vs, v.workspaceId, v.email)
    ensures UniqueInvitations(vs[v.id := v])
  {
    var vs' := vs[v.id := v];
    forall a, b | a in vs' && b in vs' && a != b
      ensures vs'[a].workspaceId != vs'[b].workspaceId || vs'[a].email != vs'[b].email
    {
      if a == v.id {
        assert b in vs && vs[b] == vs'[b];
      } else if b == v.id {
        assert a in vs && vs[a] == vs'[a];
      }
    }
  }

  /** A membership row that counts for the policies: active, in the workspace, for the user. */
  predicate HoldsActiveRole(ms: map<Uuid, WorkspaceMember>, workspaceId: Uuid, userId: Uuid, roles: set<Role>)
  {
    exists id :: id in ms && ms[id].workspaceId == workspaceId && ms[id].userId == userId
      && ms[id].deletedAt.None? && ms[id].role in roles
  }

  // ---- Row-level security policies ----

  /** `view_workspace`, `view_workspace_members`, `view_workspace_invitations`. */
  ghost predicate MayView(ms: map<Uuid, WorkspaceMember>, workspaceId: Uuid, uid: Uuid)
  {
    HoldsActiveRole(ms, workspaceId, uid, {Owner, Admin, Member})
  }

  /** `update_workspace`: only an active owner. */
  ghost predicate MayUpdateWorkspace(ms: map<Uuid, WorkspaceMember>, workspaceId: Uuid, uid: Uuid)
  {
    HoldsActiveRole(ms, workspaceId, uid, {Owner})
  }

  /** `manage_workspace_members` and `manage_workspace_invitations`: an active admin or owner. */
  ghost predicate MayManage(ms: map<Uuid, WorkspaceMember>, workspaceId: Uuid, uid: Uuid)
  {
    HoldsActiveRole(ms, workspaceId, uid, {Owner, Admin})
  }

  /** `create_workspace`: the inserting user must be the recorded creator. */
  predicate MayCreateWorkspace(uid: Uuid, w: Workspace)
  {
    uid == w.createdBy
  }

  /** The policies are nested: whoever may update a workspace may manage its members and
      invitations, and whoever may manage may view; an active admin may manage but not
      update the workspace row. */
  lemma PoliciesNested(ms: map<Uuid, WorkspaceMember>, workspaceId: Uuid, uid: Uuid)
    ensures MayUpdateWorkspace(ms, workspaceId, uid) ==> MayManage(ms, workspaceId, uid)
    ensures MayManage(ms, workspaceId, uid) ==> MayView(ms, workspaceId, uid)
    ensures (forall id :: id in ms && ms[id].workspaceId == workspaceId && ms[id].userId == uid ==>
               ms[id].role == Admin && ms[id].deletedAt.None?) && MayView(ms, workspaceId, uid)
            ==> MayManage(ms, workspaceId, uid) && !MayUpdateWorkspace(ms, workspaceId, uid)
  {
  }
}
