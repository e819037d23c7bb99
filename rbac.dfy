/** The client-side RBAC context: the role-to-permission table, the permissions derived
    from the selected workspace, and the provider state that remembers the last selected
    workspace in browser storage (a key-to-string map here). */
module Rbac {
  import opened Common
  import opened WorkspacesSchema
  import ProfilesSchema

  datatype Permission = ViewWorkspace | EditWorkspace | DeleteWorkspace | InviteMembers | ManageMembers

  /** `Object.values(PERMISSIONS)`, in declaration order. */
  const AllPermissions: seq<Permission> := [ViewWorkspace, EditWorkspace, DeleteWorkspace, InviteMembers, ManageMembers]

  /** `ROLE_PERMISSIONS`. */
  function RolePermissions(r: Role): seq<Permission>
  {
    match r
    case Owner => AllPermissions
    case Admin => [ViewWorkspace, EditWorkspace, InviteMembers, ManageMembers]
    case Member => [ViewWorkspace]
  }

  function PermissionSet(r: Role): set<Permission>
  {
    set p | p in RolePermissions(r)
  }

  /** Owners hold every permission, admins all but DELETE_WORKSPACE, members only
      VIEW_WORKSPACE; so the three sets are strictly nested. */
  lemma RolePermissionsTable()
    ensures forall p: Permission :: p in RolePermissions(Owner)
    ensures forall p: Permission :: p in RolePermissions(Admin) <==> p != DeleteWorkspace
    ensures forall p: Permission :: p in RolePermissions(Member) <==> p == ViewWorkspace
    ensures PermissionSet(Member) < PermissionSet(Admin) < PermissionSet(Owner)
  {
    forall p: Permission ensures p in RolePermissions(Owner) {
      var i := match p
        case ViewWorkspace => 0 case EditWorkspace => 1 case DeleteWorkspace => 2
        case InviteMembers => 3 case ManageMembers => 4;
      assert AllPermissions[i] == p;
    }
    assert DeleteWorkspace in PermissionSet(Owner) - PermissionSet(Admin);
    assert EditWorkspace in PermissionSet(Admin) - PermissionSet(Member);
  }

  /** An entry of the provider's list: a workspace row with the caller's role in it. */
  datatype WorkspaceMembership = WorkspaceMembership(workspace: Workspace, role: Role, permissions: seq<Permission>)

  /** The exposed `permissions`: the selected membership's role's permissions, or none. */
  function CurrentPermissions(current: Option<WorkspaceMembership>): (ps: seq<Permission>)
    ensures current.None? ==> ps == []
    ensures current.Some? ==> (forall p :: p in ps <==> p in PermissionSet(current.value.role))
    ensures current.Some? ==> ViewWorkspace in ps
  {
    if current.Some? then RolePermissions(current.value.role) else []
  }

  /** The storage key that remembers the selection. */
  const StorageKey: string := "lastWorkspaceId"

  /** `localStorage.getItem(key)`: null when the key is absent. */
  function GetItem(storage: map<string, string>, key: string): Option<string>
  {
    if key in storage then Some(storage[key]) else None
  }

  /** `memberships.find(m => m.workspace.id === id)`, as the index of the first match. */
  function FindById(ms: seq<WorkspaceMembership>, id: Uuid): (r: Option<nat>)
    ensures r.Some? ==> r.value < |ms| && ms[r.value].workspace.id == id
    ensures r.Some? ==> forall k :: 0 <= k < r.value ==> ms[k].workspace.id != id
    ensures r.None? <==> forall k :: 0 <= k < |ms| ==> ms[k].workspace.id != id
  {
    if ms == [] then None
    else if ms[0].workspace.id == id then Some(0)
    else
      var r := FindById(ms[1..], id);
      if r.Some? then Some(r.value + 1) else None
  }

  /** The membership the load-last-selected effect switches to (None: it does nothing):
      the saved workspace when it is among the memberships, else the first one. */
  function InitialSelection(ms: seq<WorkspaceMembership>, saved: Option<string>): (r: Option<WorkspaceMembership>)
    ensures r.None? <==> ms == []
    ensures r.Some? ==> r.value in ms
    ensures r.Some? && Truthy(saved) && FindById(ms, saved.value).Some? ==>
      r.value.workspace.id == saved.value && r.value == ms[FindById(ms, saved.value).value]
    ensures r.Some? && !(Truthy(saved) && FindById(ms, saved.value).Some?) ==> r.value == ms[0]
  {
    if Truthy(saved) && |ms| > 0 then
      var i := FindById(ms, saved.value);
      if i.Some? then Some(ms[i.value]) else Some(ms[0])
    else if |ms| > 0 then Some(ms[0])
    else None
  }

  /** What `updateWorkspaceContext` makes of the list: the workspace is replaced in the
      entries with its id; roles, permissions and every other entry stay as they were. */
  function ReplaceWorkspace(ms: seq<WorkspaceMembership>, w: Workspace): (r: seq<WorkspaceMembership>)
    ensures |r| == |ms|
    ensures forall i :: 0 <= i < |ms| ==> r[i].role == ms[i].role && r[i].permissions == ms[i].permissions
    ensures forall i :: 0 <= i < |ms| ==> r[i].workspace == if ms[i].workspace.id == w.id then w else ms[i].workspace
  {
    if ms == [] then []
    else
      var head := if ms[0].workspace.id == w.id then ms[0].(workspace := w) else ms[0];
      [head] + ReplaceWorkspace(ms[1..], w)
  }

  /** The provider's state: the signed-in user's profile, its membership list, the
      selected membership and browser storage. */
  class RbacProvider {
    var profile: ProfilesSchema.Profile
    var memberships: seq<WorkspaceMembership>
    var current: Option<WorkspaceMembership>
    var storage: map<string, string>

    /** Mounting the provider with its initial profile and list; nothing is selected yet. */
    constructor(initialProfile: ProfilesSchema.Profile, initialWorkspaces: seq<WorkspaceMembership>,
                storage0: map<string, string>)
      ensures profile == initialProfile
      ensures memberships == initialWorkspaces && current == None && storage == storage0
    {
      profile := initialProfile;
      memberships := initialWorkspaces;
      current := None;
      storage := storage0;
    }

    function Permissions(): seq<Permission>
      reads this
    {
      CurrentPermissions(current)
    }

    /** The first effect: memberships fetched from the server replace the list. */
    method ReceiveFetched(fetched: Option<seq<WorkspaceMembership>>)
      modifies this
      ensures profile == old(profile)
      ensures memberships == (if fetched.Some? then fetched.value else old(memberships))
      ensures current == old(current) && storage == old(storage)
    {
      if fetched.Some? {
        memberships := fetched.value;
      }
    }

    /** `handleWorkspaceChange`: select the membership and remember its workspace id. */
    method HandleWorkspaceChange(m: WorkspaceMembership)
      modifies this
      ensures profile == old(profile)
      ensures current == Some(m) && storage == old(storage)[StorageKey := m.workspace.id]
      ensures memberships == old(memberships)
    {
      current := Some(m);
      storage := storage[StorageKey := m.workspace.id];
    }

    /** The effect that runs whenever the list changes: restore the saved selection. */
    method LoadLastSelected()
      modifies this
      ensures profile == old(profile)
      ensures memberships == old(memberships)
      ensures var choice := InitialSelection(old(memberships), GetItem(old(storage), StorageKey));
        if choice.None? then current == old(current) && storage == old(storage)
        else current == choice && storage == old(storage)[StorageKey := choice.value.workspace.id]
    {
      var lastWorkspaceId := GetItem(storage, StorageKey);
      if Truthy(lastWorkspaceId) && |memberships| > 0 {
        var found := FindById(memberships, lastWorkspaceId.value);
        if found.Some? {
          HandleWorkspaceChange(memberships[found.value]);
        } else {
          HandleWorkspaceChange(memberships[0]);
        }
      } else if |memberships| > 0 {
        HandleWorkspaceChange(memberships[0]);
      }
    }

    /** `setCurrentWorkspace`: switch to the entry for this workspace; a workspace not in
        the list changes nothing. */
    method SetCurrentWorkspace(w: Workspace)
      modifies this
      ensures profile == old(profile)
      ensures memberships == old(memberships)
      ensures var found := FindById(old(memberships), w.id);
        if found.None? then current == old(current) && storage == old(storage)
        else current == Some(old(memberships)[found.value]) && storage == old(storage)[StorageKey := w.id]
    {
      var found := FindById(memberships, w.id);
      if found.Some? {
        HandleWorkspaceChange(memberships[found.value]);
      }
    }

    /** `updateProfileContext`: replace the profile; the memberships, the selection and
        storage stay as they were. */
    method UpdateProfileContext(p: ProfilesSchema.Profile)
      modifies this
      ensures profile == p
      ensures memberships == old(memberships) && current == old(current) && storage == old(storage)
    {
      profile := p;
    }

    /** `updateWorkspaceContext`: replace the workspace in the list, and in the selection
        when it is the selected one; storage is untouched. */
    method UpdateWorkspaceContext(w: Workspace)
      modifies this
      ensures profile == old(profile)
      ensures memberships == ReplaceWorkspace(old(memberships), w)
      ensures current == if old(current).Some? && old(current).value.workspace.id == w.id
                         then Some(old(current).value.(workspace := w)) else old(current)
      ensures storage == old(storage)
    {
      memberships := ReplaceWorkspace(memberships, w);
      if current.Some? && current.value.workspace.id == w.id {
        current := Some(current.value.(workspace := w));
      }
    }

    /** `addWorkspaceMembership`: append the entry and switch to it. */
    method AddWorkspaceMembership(m: WorkspaceMembership)
      modifies this
      ensures profile == old(profile)
      ensures memberships == old(memberships) + [m]
      ensures current == Some(m) && storage == old(storage)[StorageKey := m.workspace.id]
    {
      memberships := memberships + [m];
      HandleWorkspaceChange(m);
    }
  }

  /** After an entry is added, re-running the load effect (the list changed) keeps it
      selected, provided no earlier entry has the same workspace id. */
  lemma {:induction false} AddedMembershipStaysSelected(ms: seq<WorkspaceMembership>, m: WorkspaceMembership, storage: map<string, string>)
    requires m.workspace.id != ""
    requires forall k :: 0 <= k < |ms| ==> ms[k].workspace.id != m.workspace.id
    ensures InitialSelection(ms + [m], GetItem(storage[StorageKey := m.workspace.id], StorageKey)) == Some(m)
  {
    var ms' := ms + [m];
    assert ms'[|ms|] == m;
    var i := FindById(ms', m.workspace.id);
    assert i.Some?;
    assert i.value == |ms|;
  }
}
